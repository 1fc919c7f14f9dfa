/** The UI message stream encoder: app/chat/stream.py, driven as in app/api/chat.py. A frame is the object that is written as
    one JSON line; the ids "t<n>" and "q<n>" are their numbers. */
module UIStream {
  import opened Wrappers
  import opened Sql
  import opened Events

  datatype Frame =
    | Start | StartStep
    | TextStart(id: int) | TextPiece(id: int, delta: string) | TextEnd(id: int)
    | ToolInputStart(id: int) | ToolInputAvailable(id: int, sql: Tree) | ToolOutputAvailable(id: int, payload: Payload)
    | DataSuggestions(items: seq<string>)
    | FinishStep | Finish | Terminator

  // ---- The encoder ----

  datatype EncoderState = EncoderState(textN: int, toolN: int, text: Option<int>, tool: Option<int>)

  function EndFrames(s: EncoderState): seq<Frame> {
    if s.text.Some? then [TextEnd(s.text.value)] else []
  }

  /** The state after an event. */
  function Next(s: EncoderState, e: PipelineEvent): EncoderState {
    match e
    case TextDelta(_) => if s.text.Some? then s else s.(textN := s.textN + 1, text := Some(s.textN + 1))
    case ToolSQL(_) => s.(toolN := s.toolN + 1, text := None, tool := Some(s.toolN + 1))
    case ToolResult(_) => s
    case Suggestions(_) => s.(text := None)
    case Done => s
  }

  /** The frames of an event. */
  function Encoded(s: EncoderState, e: PipelineEvent): seq<Frame> {
    match e
    case TextDelta(d) =>
      (if s.text.Some? then [] else [TextStart(s.textN + 1)]) + [TextPiece(if s.text.Some? then s.text.value else s.textN + 1, d)]
    case ToolSQL(sql) => EndFrames(s) + [ToolInputStart(s.toolN + 1), ToolInputAvailable(s.toolN + 1, sql)]
    case ToolResult(p) => [ToolOutputAvailable(if s.tool.Some? then s.tool.value else 0, p)]
    case Suggestions(items) => EndFrames(s) + [DataSuggestions(items)]
    case Done => []
  }

  class UIMessageStream {
    var textN: int
    var toolN: int
    var currentText: Option<int>
    var currentTool: Option<int>

    function State(): EncoderState
      reads this
    {
      EncoderState(textN, toolN, currentText, currentTool)
    }

    constructor ()
      ensures State() == EncoderState(-1, -1, None, None)
    {
      textN, toolN, currentText, currentTool := -1, -1, None, None;
    }

    method OpenStream() returns (out: seq<Frame>)
      ensures out == [Start, StartStep]
    {
      return [Start, StartStep];
    }

    method BeginText() returns (out: seq<Frame>)
      modifies this
      ensures State() == old(State()).(textN := old(textN) + 1, text := Some(old(textN) + 1))
      ensures out == [TextStart(old(textN) + 1)]
    {
      textN := textN + 1;
      currentText := Some(textN);
      return [TextStart(textN)];
    }

    method WriteText(delta: string) returns (out: seq<Frame>)
      modifies this
      ensures State() == Next(old(State()), TextDelta(delta)) && out == Encoded(old(State()), TextDelta(delta))
    {
      var prefix := [];
      if currentText.None? {
        prefix := BeginText();
      }
      return prefix + [TextPiece(currentText.value, delta)];
    }

    method EndText() returns (out: seq<Frame>)
      modifies this
      ensures State() == old(State()).(text := None) && out == EndFrames(old(State()))
    {
      if currentText.None? {
        return [];
      }
      out := [TextEnd(currentText.value)];
      currentText := None;
    }

    method ToolInput(sql: Tree) returns (out: seq<Frame>)
      modifies this
      ensures State() == Next(old(State()), ToolSQL(sql)) && out == Encoded(old(State()), ToolSQL(sql))
    {
      out := EndText();
      toolN := toolN + 1;
      currentTool := Some(toolN);
      out := out + [ToolInputStart(toolN)];
      out := out + [ToolInputAvailable(toolN, sql)];
    }

    method ToolOutput(payload: Payload) returns (out: seq<Frame>)
      ensures out == Encoded(State(), ToolResult(payload))
    {
      return [ToolOutputAvailable(if currentTool.Some? then currentTool.value else 0, payload)];
    }

    method Suggest(items: seq<string>) returns (out: seq<Frame>)
      modifies this
      ensures State() == Next(old(State()), Suggestions(items)) && out == Encoded(old(State()), Suggestions(items))
    {
      out := EndText();
      out := out + [DataSuggestions(items)];
    }

    method Close() returns (out: seq<Frame>)
      modifies this
      ensures State() == old(State()).(text := None)
      ensures out == EndFrames(old(State())) + [FinishStep, Finish, Terminator]
    {
      out := EndText();
      out := out + [FinishStep];
      out := out + [Finish];
      out := out + [Terminator];
    }
  }

  // ---- The stream of a run ----

  function StateAfter(es: seq<PipelineEvent>): EncoderState {
    if es == [] then EncoderState(-1, -1, None, None) else Next(StateAfter(es[..|es| - 1]), es[|es| - 1])
  }

  function FramesAfter(es: seq<PipelineEvent>): seq<Frame> {
    if es == [] then [Start, StartStep]
    else FramesAfter(es[..|es| - 1]) + Encoded(StateAfter(es[..|es| - 1]), es[|es| - 1])
  }

  function StreamOf(es: seq<PipelineEvent>): seq<Frame> {
    FramesAfter(es) + EndFrames(StateAfter(es)) + [FinishStep, Finish, Terminator]
  }

  /** `_event_stream`. */
  method EventStream(es: seq<PipelineEvent>) returns (out: seq<Frame>)
    ensures out == StreamOf(es)
  {
    var enc := new UIMessageStream();
    out := enc.OpenStream();
    var i := 0;
    while i < |es|
      invariant i <= |es| && fresh(enc) && enc.State() == StateAfter(es[..i]) && out == FramesAfter(es[..i])
    {
      assert es[..i + 1][..|es[..i + 1]| - 1] == es[..i];
      var more := [];
      match es[i] {
        case TextDelta(text) => more := enc.WriteText(text);
        case ToolSQL(sql) => more := enc.ToolInput(sql);
        case ToolResult(payload) => more := enc.ToolOutput(payload);
        case Suggestions(items) => more := enc.Suggest(items);
        case Done =>
      }
      out := out + more;
      i := i + 1;
    }
    assert es[..i] == es;
    var last := enc.Close();
    out := out + last;
  }

  // ---- Well-formed streams ----

  /** What a client tracks: the open text block, the largest block id so far, and the announced tool calls. */
  datatype Client = Client(open: Option<int>, lastId: int, calls: set<int>)

  /** One frame, or None if the client must reject it. */
  function Accept(c: Client, f: Frame): Option<Client> {
    match f
    case TextStart(id) => if c.open.None? && id > c.lastId then Some(c.(open := Some(id), lastId := id)) else None
    case TextPiece(id, _) => if c.open == Some(id) then Some(c) else None
    case TextEnd(id) => if c.open == Some(id) then Some(c.(open := None)) else None
    case ToolInputStart(id) => if c.open.None? && id !in c.calls then Some(c) else None
    case ToolInputAvailable(id, _) => if c.open.None? && id !in c.calls then Some(c.(calls := c.calls + {id})) else None
    case ToolOutputAvailable(_, _) => Some(c)
    case _ => if c.open.None? then Some(c) else None
  }

  function AcceptAll(c: Client, fs: seq<Frame>): Option<Client> {
    if fs == [] then Some(c) else
      match AcceptAll(c, fs[..|fs| - 1])
      case None => None
      case Some(d) => Accept(d, fs[|fs| - 1])
  }

  /** Deltas lie inside their open block, block ids strictly increase, every block is closed, and no tool call, suggestion or
      finish frame occurs inside a block. */
  predicate WellFormed(fs: seq<Frame>) {
    var c := AcceptAll(Client(None, -1, {}), fs);
    c.Some? && c.value.open.None?
  }

  lemma {:induction false} AcceptAppend(c: Client, a: seq<Frame>, b: seq<Frame>)
    ensures AcceptAll(c, a + b) == match AcceptAll(c, a) case None => None case Some(d) => AcceptAll(d, b)
  {
    if b == [] {
      assert a + b == a;
    } else {
      assert (a + b)[..|a + b| - 1] == a + b[..|b| - 1];
      AcceptAppend(c, a, b[..|b| - 1]);
    }
  }

  lemma AcceptOne(c: Client, f: Frame)
    ensures AcceptAll(c, [f]) == Accept(c, f)
  {
    assert [f][..0] == [];
  }

  lemma AcceptTwo(c: Client, f: Frame, g: Frame)
    ensures AcceptAll(c, [f, g]) == match Accept(c, f) case None => None case Some(d) => Accept(d, g)
  {
    assert [f, g][..1] == [f];
    AcceptOne(c, f);
  }

  /** The client's picture of the encoder. */
  ghost predicate Tracks(c: Client, s: EncoderState) {
    c.open == s.text && c.lastId == s.textN && (forall id :: id in c.calls <==> 0 <= id <= s.toolN)
    && (s.tool.Some? ==> s.tool.value == s.toolN >= 0) && (s.tool.None? ==> s.toolN == -1) && s.toolN >= -1
  }

  lemma AcceptText(c: Client, s: EncoderState, text: string)
    requires Tracks(c, s)
    ensures var d := AcceptAll(c, Encoded(s, TextDelta(text))); d.Some? && Tracks(d.value, Next(s, TextDelta(text)))
  {
    if s.text.Some? {
      assert Encoded(s, TextDelta(text)) == [TextPiece(s.text.value, text)];
      AcceptOne(c, TextPiece(s.text.value, text));
    } else {
      assert Encoded(s, TextDelta(text)) == [TextStart(s.textN + 1), TextPiece(s.textN + 1, text)];
      AcceptTwo(c, TextStart(s.textN + 1), TextPiece(s.textN + 1, text));
    }
  }

  lemma AcceptSql(c: Client, s: EncoderState, sql: Tree)
    requires Tracks(c, s)
    ensures var d := AcceptAll(c, Encoded(s, ToolSQL(sql))); d.Some? && Tracks(d.value, Next(s, ToolSQL(sql)))
  {
    AcceptEnd(c, s);
    AcceptAppend(c, EndFrames(s), [ToolInputStart(s.toolN + 1), ToolInputAvailable(s.toolN + 1, sql)]);
    AcceptTwo(c.(open := None), ToolInputStart(s.toolN + 1), ToolInputAvailable(s.toolN + 1, sql));
  }

  lemma AcceptSuggestions(c: Client, s: EncoderState, items: seq<string>)
    requires Tracks(c, s)
    ensures var d := AcceptAll(c, Encoded(s, Suggestions(items))); d.Some? && Tracks(d.value, Next(s, Suggestions(items)))
  {
    AcceptEnd(c, s);
    AcceptAppend(c, EndFrames(s), [DataSuggestions(items)]);
    AcceptOne(c.(open := None), DataSuggestions(items));
  }

  lemma AcceptEvent(c: Client, s: EncoderState, e: PipelineEvent)
    requires Tracks(c, s)
    ensures var d := AcceptAll(c, Encoded(s, e)); d.Some? && Tracks(d.value, Next(s, e))
  {
    match e
    case TextDelta(text) => AcceptText(c, s, text);
    case ToolSQL(sql) => AcceptSql(c, s, sql);
    case ToolResult(p) => AcceptOne(c, Encoded(s, e)[0]);
    case Suggestions(items) => AcceptSuggestions(c, s, items);
    case Done =>
  }

  lemma AcceptEnd(c: Client, s: EncoderState)
    requires Tracks(c, s)
    ensures AcceptAll(c, EndFrames(s)) == Some(c.(open := None))
  {
    if s.text.Some? {
      AcceptOne(c, TextEnd(s.text.value));
    }
  }

  lemma {:induction false} AcceptRun(es: seq<PipelineEvent>)
    ensures var c := AcceptAll(Client(None, -1, {}), FramesAfter(es)); c.Some? && Tracks(c.value, StateAfter(es))
  {
    var start := Client(None, -1, {});
    if es == [] {
      AcceptTwo(start, Start, StartStep);
    } else {
      var front, e := es[..|es| - 1], es[|es| - 1];
      AcceptRun(front);
      AcceptAppend(start, FramesAfter(front), Encoded(StateAfter(front), e));
      AcceptEvent(AcceptAll(start, FramesAfter(front)).value, StateAfter(front), e);
    }
  }

  lemma AcceptClose(c: Client)
    requires c.open.None?
    ensures AcceptAll(c, [FinishStep, Finish, Terminator]) == Some(c)
  {
    assert [FinishStep, Finish, Terminator] == [FinishStep, Finish] + [Terminator];
    AcceptAppend(c, [FinishStep, Finish], [Terminator]);
    AcceptTwo(c, FinishStep, Finish);
    AcceptOne(c, Terminator);
  }

  /** Every stream is well-formed, whatever events the run emits. */
  lemma StreamWellFormed(es: seq<PipelineEvent>)
    ensures WellFormed(StreamOf(es))
  {
    var start, fs, end := Client(None, -1, {}), FramesAfter(es), EndFrames(StateAfter(es));
    AcceptRun(es);
    var c := AcceptAll(start, fs).value;
    AcceptEnd(c, StateAfter(es));
    AcceptAppend(start, fs, end);
    AcceptAppend(start, fs + end, [FinishStep, Finish, Terminator]);
    AcceptClose(c.(open := None));
  }

  // ---- Decoding ----

  /** The event a frame carries, if it carries one. */
  function DecodeFrame(f: Frame): seq<PipelineEvent> {
    match f
    case TextPiece(_, d) => [TextDelta(d)]
    case ToolInputAvailable(_, sql) => [ToolSQL(sql)]
    case ToolOutputAvailable(_, p) => [ToolResult(p)]
    case DataSuggestions(items) => [Suggestions(items)]
    case _ => []
  }

  function FlatMap<T, U>(f: T -> seq<U>, s: seq<T>): seq<U> {
    if s == [] then [] else f(s[0]) + FlatMap(f, s[1..])
  }

  lemma {:induction false} FlatMapAppend<T, U>(f: T -> seq<U>, a: seq<T>, b: seq<T>)
    ensures FlatMap(f, a + b) == FlatMap(f, a) + FlatMap(f, b)
  {
    if a == [] {
      assert a + b == b;
    } else {
      FlatMapAppend(f, a[1..], b);
      assert (a + b)[1..] == a[1..] + b;
    }
  }

  lemma FlatMapOne<T, U>(f: T -> seq<U>, x: T)
    ensures FlatMap(f, [x]) == f(x)
  {
    assert [x][1..] == [];
  }

  function Decode(fs: seq<Frame>): seq<PipelineEvent> {
    FlatMap(DecodeFrame, fs)
  }

  function WithoutDone(es: seq<PipelineEvent>): seq<PipelineEvent> {
    if es == [] then [] else WithoutDone(es[..|es| - 1]) + if es[|es| - 1].Done? then [] else [es[|es| - 1]]
  }

  lemma DecodeAppend(a: seq<Frame>, b: seq<Frame>)
    ensures Decode(a + b) == Decode(a) + Decode(b)
  {
    FlatMapAppend(DecodeFrame, a, b);
  }

  lemma DecodeOne(f: Frame)
    ensures Decode([f]) == DecodeFrame(f)
  {
    FlatMapOne(DecodeFrame, f);
  }

  lemma DecodeStep(a: seq<Frame>, f: Frame)
    ensures Decode(a + [f]) == Decode(a) + DecodeFrame(f)
  {
    DecodeAppend(a, [f]);
    DecodeOne(f);
  }

  lemma DecodeEvent(s: EncoderState, e: PipelineEvent)
    ensures Decode(Encoded(s, e)) == if e.Done? then [] else [e]
  {
    match e
    case TextDelta(d) =>
      var piece := TextPiece(if s.text.Some? then s.text.value else s.textN + 1, d);
      DecodeOne(TextStart(s.textN + 1));
      DecodeStep(if s.text.Some? then [] else [TextStart(s.textN + 1)], piece);
    case ToolSQL(sql) =>
      var started := EndFrames(s) + [ToolInputStart(s.toolN + 1)];
      assert Encoded(s, e) == started + [ToolInputAvailable(s.toolN + 1, sql)];
      DecodeEnd(s);
      DecodeStep(EndFrames(s), ToolInputStart(s.toolN + 1));
      DecodeStep(started, ToolInputAvailable(s.toolN + 1, sql));
    case ToolResult(_) => DecodeOne(Encoded(s, e)[0]);
    case Suggestions(items) =>
      DecodeEnd(s);
      DecodeStep(EndFrames(s), DataSuggestions(items));
    case Done =>
  }

  lemma DecodeEnd(s: EncoderState)
    ensures Decode(EndFrames(s)) == []
  {
    if s.text.Some? {
      DecodeOne(TextEnd(s.text.value));
    }
  }

  lemma {:induction false} DecodeRun(es: seq<PipelineEvent>)
    ensures Decode(FramesAfter(es)) == WithoutDone(es)
  {
    if es == [] {
      assert [Start, StartStep] == [Start] + [StartStep];
      DecodeAppend([Start], [StartStep]);
      DecodeOne(Start);
      DecodeOne(StartStep);
    } else {
      var front, e := es[..|es| - 1], es[|es| - 1];
      DecodeRun(front);
      DecodeAppend(FramesAfter(front), Encoded(StateAfter(front), e));
      DecodeEvent(StateAfter(front), e);
    }
  }

  /** Decoding the stream recovers the events of the run, in order. */
  lemma StreamRoundTrip(es: seq<PipelineEvent>)
    ensures Decode(StreamOf(es)) == WithoutDone(es)
  {
    DecodeRun(es);
    DecodeEnd(StateAfter(es));
    DecodeAppend(FramesAfter(es), EndFrames(StateAfter(es)));
    DecodeAppend(FramesAfter(es) + EndFrames(StateAfter(es)), [FinishStep, Finish, Terminator]);
    assert [FinishStep, Finish, Terminator] == ([FinishStep] + [Finish]) + [Terminator];
    DecodeAppend([FinishStep] + [Finish], [Terminator]);
    DecodeAppend([FinishStep], [Finish]);
    DecodeOne(FinishStep);
    DecodeOne(Finish);
    DecodeOne(Terminator);
  }

  // ---- Tool outputs ----

  /** Some SQL is announced before each result. */
  predicate ResultsFollowSql(es: seq<PipelineEvent>) {
    forall i :: 0 <= i < |es| && es[i].ToolResult? ==> exists j :: 0 <= j < i && es[j].ToolSQL?
  }

  /** A tool output with this id comes after the announcement of the same id. */
  predicate Announced(fs: seq<Frame>, k: nat)
    requires k < |fs| && fs[k].ToolOutputAvailable?
  {
    exists j :: 0 <= j < k && fs[j].ToolInputAvailable? && fs[j].id == fs[k].id
  }

  ghost predicate AllAnnounced(fs: seq<Frame>) {
    forall k: nat :: k < |fs| && fs[k].ToolOutputAvailable? ==> Announced(fs, k)
  }

  /** The announcement of the call that the encoder currently has in mind. */
  predicate CurrentAnnounced(fs: seq<Frame>, tool: Option<int>) {
    tool.Some? ==> exists j :: 0 <= j < |fs| && fs[j].ToolInputAvailable? && fs[j].id == tool.value
  }

  lemma AnnouncedStep(fs: seq<Frame>, s: EncoderState, e: PipelineEvent)
    requires AllAnnounced(fs) && CurrentAnnounced(fs, s.tool) && (e.ToolResult? ==> s.tool.Some?)
    ensures AllAnnounced(fs + Encoded(s, e)) && CurrentAnnounced(fs + Encoded(s, e), Next(s, e).tool)
  {
    var more := Encoded(s, e);
    var after := fs + more;
    forall k: nat | k < |after| && after[k].ToolOutputAvailable? ensures Announced(after, k) {
      if k < |fs| {
        assert Announced(fs, k);
        var j :| 0 <= j < k && fs[j].ToolInputAvailable? && fs[j].id == fs[k].id;
        assert after[j] == fs[j];
      } else {
        assert after[k] == more[k - |fs|];
        var j :| 0 <= j < |fs| && fs[j].ToolInputAvailable? && fs[j].id == s.tool.value;
        assert after[j] == fs[j];
      }
    }
    if e.ToolSQL? {
      assert after[|after| - 1] == ToolInputAvailable(s.toolN + 1, e.sql);
    } else if s.tool.Some? {
      var j :| 0 <= j < |fs| && fs[j].ToolInputAvailable? && fs[j].id == s.tool.value;
      assert after[j] == fs[j];
    }
  }

  predicate HasSql(es: seq<PipelineEvent>) {
    exists j :: 0 <= j < |es| && es[j].ToolSQL?
  }

  lemma {:induction false} AnnouncedRun(es: seq<PipelineEvent>)
    requires ResultsFollowSql(es)
    ensures AllAnnounced(FramesAfter(es)) && CurrentAnnounced(FramesAfter(es), StateAfter(es).tool)
    ensures StateAfter(es).tool.Some? <==> HasSql(es)
  {
    if es != [] {
      var front, e := es[..|es| - 1], es[|es| - 1];
      forall i | 0 <= i < |front| && front[i].ToolResult? ensures exists j :: 0 <= j < i && front[j].ToolSQL? {
        assert es[i].ToolResult?;
        var j :| 0 <= j < i && es[j].ToolSQL?;
        assert front[j].ToolSQL?;
      }
      AnnouncedRun(front);
      if e.ToolResult? {
        var j :| 0 <= j < |es| - 1 && es[j].ToolSQL?;
        assert front[j].ToolSQL?;
      }
      AnnouncedStep(FramesAfter(front), StateAfter(front), e);
      assert HasSql(es) <==> HasSql(front) || e.ToolSQL? by {
        assert forall j :: 0 <= j < |front| ==> es[j] == front[j];
      }
    }
  }

  /** If every result of the run follows some SQL, every tool output of the stream names a call announced before it. */
  lemma OutputsAnnounced(es: seq<PipelineEvent>)
    requires ResultsFollowSql(es)
    ensures AllAnnounced(StreamOf(es))
  {
    AnnouncedRun(es);
    var fs, tail := FramesAfter(es), EndFrames(StateAfter(es)) + [FinishStep, Finish, Terminator];
    var all: seq<Frame> := fs + tail;
    assert StreamOf(es) == all;
    forall k: nat | k < |all| && all[k].ToolOutputAvailable? ensures Announced(all, k) {
      assert Announced(fs, k);
      var j :| 0 <= j < k && fs[j].ToolInputAvailable? && fs[j].id == fs[k].id;
      assert all[j] == fs[j];
    }
  }
}
