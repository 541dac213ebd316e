/** Token streaming of the LangGraph executor (workspace-template/a2a_executor.py): the
    append flags on artifact chunks, the client that folds them, and the terminal message. */
module Streaming {
  import opened Basics
  import Regex
  import Redaction
  import Shapes
  import Text

  // ---- what the agent yields

  datatype Block = TextBlock(text: string) | PlainString(text: string) | OtherBlock
  datatype Content = Plain(text: string) | Blocks(blocks: seq<Block>) | OtherContent

  /** An event of the agent's stream; a model chunk may be missing, a run id may be "". */
  datatype AgentEvent = ModelStream(runId: string, chunk: Option<Content>) | OtherEvent

  function BlockTexts(blocks: seq<Block>): seq<string> {
    if blocks == [] then []
    else if blocks[0].OtherBlock? || blocks[0].text == "" then BlockTexts(blocks[1..])
    else [blocks[0].text] + BlockTexts(blocks[1..])
  }

  /** `_extract_chunk_text` */
  function ChunkTexts(c: Content): seq<string> {
    match c
    case Plain(t) => if t == "" then [] else [t]
    case Blocks(bs) => BlockTexts(bs)
    case OtherContent => []
  }

  function EventTexts(e: AgentEvent): seq<string> {
    if e.ModelStream? && e.chunk.Some? then ChunkTexts(e.chunk.value) else []
  }

  // ---- what that is, place by place

  /** The blocks a content amounts to: a plain string is one, other content has none. */
  function BlocksOf(c: Content): seq<Block> {
    match c
    case Plain(t) => [PlainString(t)]
    case Blocks(bs) => bs
    case OtherContent => []
  }

  function AllBlocks(events: seq<AgentEvent>): seq<Block> {
    if events == [] then []
    else
      var e := events[0];
      (if e.ModelStream? && e.chunk.Some? then BlocksOf(e.chunk.value) else []) + AllBlocks(events[1..])
  }

  predicate Speaks(b: Block) { !b.OtherBlock? && b.text != "" }

  function TextOf(b: Block): string { if b.OtherBlock? then "" else b.text }

  /** All text of a stream of events, in order. */
  function AllTexts(events: seq<AgentEvent>): seq<string> {
    if events == [] then [] else EventTexts(events[0]) + AllTexts(events[1..])
  }

  lemma {:induction false} BlockTextsAre(blocks: seq<Block>)
    ensures BlockTexts(blocks) == FilterMap(blocks, Speaks, TextOf)
  {
    if blocks != [] { BlockTextsAre(blocks[1..]); }
  }

  lemma ChunkTextsAre(c: Content)
    ensures ChunkTexts(c) == FilterMap(BlocksOf(c), Speaks, TextOf)
  {
    if c.Blocks? { BlockTextsAre(c.blocks); }
    if c.Plain? { assert [PlainString(c.text)][1..] == []; }
  }

  /** What is taken from a chunk: the texts of exactly the text blocks and strings that are
      not empty, verbatim and in order; a plain string, unless empty; else nothing. */
  lemma ChunkTextsPick(c: Content) returns (at: seq<nat>)
    ensures Picks(BlocksOf(c), Speaks, TextOf, at, ChunkTexts(c))
  {
    ChunkTextsAre(c);
    at := FilterMapPicks(BlocksOf(c), Speaks, TextOf);
  }

  lemma {:induction false} FilterMapAppend(a: seq<Block>, b: seq<Block>)
    ensures FilterMap(a + b, Speaks, TextOf) == FilterMap(a, Speaks, TextOf) + FilterMap(b, Speaks, TextOf)
  {
    if a == [] {
      assert a + b == b;
    } else {
      assert (a + b)[1..] == a[1..] + b;
      FilterMapAppend(a[1..], b);
    }
  }

  lemma {:induction false} AllTextsAre(events: seq<AgentEvent>)
    ensures AllTexts(events) == FilterMap(AllBlocks(events), Speaks, TextOf)
  {
    if events != [] {
      var e := events[0];
      var first := if e.ModelStream? && e.chunk.Some? then BlocksOf(e.chunk.value) else [];
      if e.ModelStream? && e.chunk.Some? { ChunkTextsAre(e.chunk.value); }
      AllTextsAre(events[1..]);
      FilterMapAppend(first, AllBlocks(events[1..]));
    }
  }

  // ---- what the executor sends

  /** Fresh artifact ids are counted instead of drawn at random. */
  type ArtifactId = nat

  datatype Chunk = Chunk(artifact: ArtifactId, text: string, append: bool)

  datatype Stream = Stream(artifact: ArtifactId, next: ArtifactId, hasStreamed: bool, runId: Option<string>,
                           sent: seq<Chunk>, accumulated: seq<string>)

  const Start := Stream(0, 1, false, None, [], [])

  /** A new non-empty run id opens a fresh artifact. */
  function Turn(s: Stream, e: AgentEvent): Stream {
    if e.ModelStream? && e.runId != "" && s.runId != Some(e.runId)
    then s.(runId := Some(e.runId), artifact := s.next, next := s.next + 1, hasStreamed := false)
    else s
  }

  function Send(s: Stream, text: string): Stream {
    s.(sent := s.sent + [Chunk(s.artifact, text, s.hasStreamed)], hasStreamed := true,
       accumulated := s.accumulated + [text])
  }

  function SendAll(s: Stream, texts: seq<string>): Stream
    decreases |texts|
  {
    if texts == [] then s else SendAll(Send(s, texts[0]), texts[1..])
  }

  function OnEvents(s: Stream, events: seq<AgentEvent>): Stream
    decreases |events|
  {
    if events == [] then s
    else OnEvents(SendAll(Turn(s, events[0]), EventTexts(events[0])), events[1..])
  }

  // ---- the client

  /** The artifacts a client holds, in the order it first saw them. */
  datatype Client = Client(order: seq<ArtifactId>, texts: map<ArtifactId, string>)

  /** A chunk with append=false starts its artifact (over); one with append=true extends an
      artifact the client has, and is dropped otherwise. */
  function Receive(c: Client, u: Chunk): Client {
    if !u.append then
      Client(if u.artifact in c.texts then c.order else c.order + [u.artifact], c.texts[u.artifact := u.text])
    else if u.artifact in c.texts then c.(texts := c.texts[u.artifact := c.texts[u.artifact] + u.text])
    else c
  }

  function ReceiveAll(c: Client, chunks: seq<Chunk>): Client {
    if chunks == [] then c
    else Receive(ReceiveAll(c, chunks[..|chunks| - 1]), chunks[|chunks| - 1])
  }

  /** The artifacts' texts joined in order of first appearance. */
  function Joined(order: seq<ArtifactId>, texts: map<ArtifactId, string>): string
    requires forall a :: a in order ==> a in texts
  {
    if order == [] then "" else texts[order[0]] + Joined(order[1..], texts)
  }

  const NoArtifacts := Client([], map[])

  // ---- the append protocol

  function ArtifactsOf(chunks: seq<Chunk>): set<ArtifactId> {
    set u | u in chunks :: u.artifact
  }

  /** Every chunk extends its artifact exactly when an earlier chunk opened it. */
  ghost predicate FlagsRight(chunks: seq<Chunk>) {
    chunks != [] ==>
      var front, last := chunks[..|chunks| - 1], chunks[|chunks| - 1];
      FlagsRight(front) && (last.append <==> last.artifact in ArtifactsOf(front))
  }

  /** What that says of chunk k. */
  lemma {:induction false} FlagsAt(chunks: seq<Chunk>, k: nat)
    requires FlagsRight(chunks) && k < |chunks|
    ensures chunks[k].append <==> exists j :: 0 <= j < k && chunks[j].artifact == chunks[k].artifact
  {
    var front := chunks[..|chunks| - 1];
    if k < |front| {
      FlagsAt(front, k);
      if j :| 0 <= j < k && front[j].artifact == front[k].artifact { assert chunks[j].artifact == chunks[k].artifact; }
      if j :| 0 <= j < k && chunks[j].artifact == chunks[k].artifact { assert front[j].artifact == front[k].artifact; }
    } else {
      assert forall j :: 0 <= j < k ==> front[j] == chunks[j];
      if chunks[k].artifact in ArtifactsOf(front) {
        var u :| u in front && u.artifact == chunks[k].artifact;
        var j :| 0 <= j < |front| && front[j] == u;
        assert chunks[j].artifact == chunks[k].artifact;
      }
      if j :| 0 <= j < k && chunks[j].artifact == chunks[k].artifact { assert front[j] in front; }
    }
  }

  /** The artifacts in the client's order are those it has a text for, each listed once. */
  ghost predicate Tidy(c: Client) {
    match c
    case Client(order, texts) => (forall a :: a in texts <==> a in order) && Distinct(order)
  }

  ghost predicate AllBelow(artifacts: set<ArtifactId>, next: nat) {
    forall a :: a in artifacts ==> a < next
  }

  ghost predicate EndsWith(c: Client, a: ArtifactId) {
    c.order != [] && c.order[|c.order| - 1] == a
  }

  /** What the client shows. */
  ghost function Shown(c: Client): string
    requires Tidy(c)
  {
    Joined(c.order, c.texts)
  }

  /** While streaming, the client `c` is in step: it holds the artifacts sent so far, the
      last of them is the current one as soon as that has a chunk, and it shows what was
      accumulated. */
  ghost predicate InStep(s: Stream, c: Client) {
    match s
    case Stream(artifact, next, hasStreamed, _, sent, accumulated) =>
      && c == ReceiveAll(NoArtifacts, sent)
      && c.texts.Keys == ArtifactsOf(sent)
      && Tidy(c)
      && artifact < next && AllBelow(c.texts.Keys, next)
      && (hasStreamed <==> artifact in c.texts)
      && (hasStreamed ==> EndsWith(c, artifact))
      && FlagsRight(sent)
      && Shown(c) == Flatten(accumulated)
  }

  lemma {:induction false} JoinedIgnores(order: seq<ArtifactId>, texts: map<ArtifactId, string>, a: ArtifactId,
                                         t: string)
    requires forall x :: x in order ==> x in texts
    requires a !in order
    ensures Joined(order, texts[a := t]) == Joined(order, texts)
  {
    if order != [] { JoinedIgnores(order[1..], texts, a, t); }
  }

  /** Changing the text of the last artifact changes the end of the joined text. */
  lemma {:induction false} JoinedLast(order: seq<ArtifactId>, texts: map<ArtifactId, string>, a: ArtifactId, t: string)
    requires Distinct(order + [a]) && forall x :: x in order ==> x in texts
    ensures Joined(order + [a], texts[a := t]) == Joined(order, texts) + t
  {
    if order == [] {
      assert order + [a] == [a];
    } else {
      assert (order + [a])[1..] == order[1..] + [a];
      assert (order + [a])[0] == order[0] && (order + [a])[|order|] == a;
      forall i, j | 0 <= i < j < |order[1..] + [a]| ensures (order[1..] + [a])[i] != (order[1..] + [a])[j] {
        assert (order + [a])[i + 1] != (order + [a])[j + 1];
      }
      JoinedLast(order[1..], texts, a, t);
    }
  }

  lemma FlagsStayRight(chunks: seq<Chunk>, u: Chunk)
    requires FlagsRight(chunks) && (u.append <==> u.artifact in ArtifactsOf(chunks))
    ensures FlagsRight(chunks + [u]) && ArtifactsOf(chunks + [u]) == ArtifactsOf(chunks) + {u.artifact}
  {
    assert (chunks + [u])[..|chunks|] == chunks;
    assert forall x :: x in chunks + [u] <==> x in chunks || x == u;
  }

  /** What the first chunk of the current artifact does to the client. */
  lemma ReceiveFirst(c: Client, a: ArtifactId, text: string)
    requires Tidy(c) && a !in c.texts
    ensures var c' := Receive(c, Chunk(a, text, false));
            && c'.texts.Keys == c.texts.Keys + {a}
            && Tidy(c') && EndsWith(c', a)
            && Shown(c') == Shown(c) + text
  {
    JoinedLast(c.order, c.texts, a, text);
  }

  /** What a further chunk of the current artifact does to the client. */
  lemma ReceiveNext(c: Client, a: ArtifactId, text: string)
    requires Tidy(c) && a in c.texts && EndsWith(c, a)
    ensures var c' := Receive(c, Chunk(a, text, true));
            && c'.texts.Keys == c.texts.Keys + {a}
            && Tidy(c') && EndsWith(c', a)
            && Shown(c') == Shown(c) + text
  {
    var front := c.order[..|c.order| - 1];
    assert c.order == front + [a];
    LongerLast(front, c.texts, a, text);
  }

  lemma LongerLast(front: seq<ArtifactId>, texts: map<ArtifactId, string>, a: ArtifactId, text: string)
    requires Distinct(front + [a]) && a in texts && forall x :: x in front ==> x in texts
    ensures Joined(front + [a], texts[a := texts[a] + text]) == Joined(front + [a], texts) + text
  {
    JoinedLast(front, texts, a, texts[a] + text);
    JoinedLast(front, texts, a, texts[a]);
    assert texts[a := texts[a]] == texts;
  }

  lemma ReceiveCurrent(c: Client, a: ArtifactId, text: string, streamed: bool)
    requires Tidy(c) && (streamed <==> a in c.texts) && (streamed ==> EndsWith(c, a))
    ensures var c' := Receive(c, Chunk(a, text, streamed));
            && c'.texts.Keys == c.texts.Keys + {a}
            && Tidy(c') && EndsWith(c', a)
            && Shown(c') == Shown(c) + text
  {
    if streamed { ReceiveNext(c, a, text); } else { ReceiveFirst(c, a, text); }
  }

  lemma SendKeepsInStep(s: Stream, c: Client, text: string) returns (c': Client)
    requires InStep(s, c)
    ensures InStep(Send(s, text), c')
  {
    c' := ReceiveSent(s, c, text);
    SendKeepsFlags(s, text);
  }

  lemma SendKeepsFlags(s: Stream, text: string)
    requires FlagsRight(s.sent) && (s.hasStreamed <==> s.artifact in ArtifactsOf(s.sent))
    ensures FlagsRight(Send(s, text).sent) && ArtifactsOf(Send(s, text).sent) == ArtifactsOf(s.sent) + {s.artifact}
    ensures Flatten(Send(s, text).accumulated) == Flatten(s.accumulated) + text
  {
    FlagsStayRight(s.sent, Chunk(s.artifact, text, s.hasStreamed));
    FlattenOne(s.accumulated, text);
  }

  lemma ReceiveSent(s: Stream, c: Client, text: string) returns (c': Client)
    requires InStep(s, c)
    ensures c' == ReceiveAll(NoArtifacts, Send(s, text).sent) && c'.texts.Keys == c.texts.Keys + {s.artifact}
    ensures Tidy(c') && EndsWith(c', s.artifact) && Shown(c') == Shown(c) + text
  {
    var u := Chunk(s.artifact, text, s.hasStreamed);
    c' := Receive(c, u);
    ReceiveOne(s.sent, u);
    ReceiveCurrent(c, s.artifact, text, s.hasStreamed);
  }

  lemma ReceiveOne(chunks: seq<Chunk>, u: Chunk)
    ensures ReceiveAll(NoArtifacts, chunks + [u]) == Receive(ReceiveAll(NoArtifacts, chunks), u)
  {
    assert (chunks + [u])[..|chunks|] == chunks;
  }

  lemma FlattenOne(a: seq<string>, t: string)
    ensures Flatten(a + [t]) == Flatten(a) + t
  {
    FlattenAppend(a, [t]);
    assert Flatten([t]) == t;
  }

  lemma TurnKeepsInStep(s: Stream, c: Client, e: AgentEvent)
    requires InStep(s, c)
    ensures InStep(Turn(s, e), c)
  {
    assert s.next !in c.texts;
  }

  lemma FirstJoined(a: seq<string>, texts: seq<string>)
    requires texts != []
    ensures a + [texts[0]] + texts[1..] == a + texts
  {
  }

  lemma {:induction false} SendAllKeepsInStep(s: Stream, c: Client, texts: seq<string>) returns (c': Client)
    requires InStep(s, c)
    ensures InStep(SendAll(s, texts), c')
    ensures SendAll(s, texts).accumulated == s.accumulated + texts
    decreases |texts|
  {
    if texts == [] {
      assert s.accumulated + texts == s.accumulated;
      c' := c;
    } else {
      var c1 := SendKeepsInStep(s, c, texts[0]);
      c' := SendAllKeepsInStep(Send(s, texts[0]), c1, texts[1..]);
      FirstJoined(s.accumulated, texts);
    }
  }

  lemma EventKeepsInStep(s: Stream, c: Client, e: AgentEvent) returns (c': Client)
    requires InStep(s, c)
    ensures InStep(SendAll(Turn(s, e), EventTexts(e)), c')
    ensures SendAll(Turn(s, e), EventTexts(e)).accumulated == s.accumulated + EventTexts(e)
  {
    TurnKeepsInStep(s, c, e);
    c' := SendAllKeepsInStep(Turn(s, e), c, EventTexts(e));
  }

  lemma {:induction false} OnEventsKeepsInStep(s: Stream, c: Client, events: seq<AgentEvent>) returns (c': Client)
    requires InStep(s, c)
    ensures InStep(OnEvents(s, events), c')
    ensures OnEvents(s, events).accumulated == s.accumulated + AllTexts(events)
    decreases |events|
  {
    if events == [] {
      assert s.accumulated + [] == s.accumulated;
      c' := c;
    } else {
      var c1 := EventKeepsInStep(s, c, events[0]);
      c' := OnEventsKeepsInStep(SendAll(Turn(s, events[0]), EventTexts(events[0])), c1, events[1..]);
      ThreeJoined(s.accumulated, EventTexts(events[0]), AllTexts(events[1..]));
    }
  }

  lemma ThreeJoined(a: seq<string>, b: seq<string>, c: seq<string>)
    ensures a + b + c == a + (b + c)
  {
  }

  /** For every event stream, run ids that alternate or come back included: each artifact's
      first chunk, and no other, has append=false, and a client that folds the chunks and
      joins the artifacts in order of first appearance has exactly the text of the stream:
      that of all its text blocks and strings that are not empty, verbatim, in order. */
  lemma ClientSeesTheText(events: seq<AgentEvent>) returns (at: seq<nat>)
    ensures var s := OnEvents(Start, events);
            var c := ReceiveAll(NoArtifacts, s.sent);
            && FlagsRight(s.sent)
            && (forall a :: a in c.order ==> a in c.texts)
            && Joined(c.order, c.texts) == Flatten(s.accumulated)
            && s.accumulated == AllTexts(events)
            && Picks(AllBlocks(events), Speaks, TextOf, at, s.accumulated)
  {
    assert InStep(Start, NoArtifacts);
    var c := OnEventsKeepsInStep(Start, NoArtifacts, events);
    assert [] + AllTexts(events) == AllTexts(events);
    AllTextsAre(events);
    at := FilterMapPicks(AllBlocks(events), Speaks, TextOf);
  }

  /** Of every artifact the first chunk has append=false, and all later ones append=true. */
  lemma FirstChunksOpen(events: seq<AgentEvent>, k: nat)
    requires k < |OnEvents(Start, events).sent|
    ensures var sent := OnEvents(Start, events).sent;
            sent[k].append <==> exists j :: 0 <= j < k && sent[j].artifact == sent[k].artifact
  {
    var at := ClientSeesTheText(events);
    FlagsAt(OnEvents(Start, events).sent, k);
  }

  // ---- which artifact a chunk belongs to

  /** The run id of the last model event that has one. */
  function LastRun(events: seq<AgentEvent>): Option<string>
    decreases |events|
  {
    if events == [] then None
    else
      var last := events[|events| - 1];
      if last.ModelStream? && last.runId != "" then Some(last.runId) else LastRun(events[..|events| - 1])
  }

  /** How often a model event has another run id than the last one before it that has any. */
  function Switches(events: seq<AgentEvent>): nat
    decreases |events|
  {
    if events == [] then 0
    else
      var front, last := events[..|events| - 1], events[|events| - 1];
      Switches(front) + if last.ModelStream? && last.runId != "" && LastRun(front) != Some(last.runId) then 1 else 0
  }

  lemma {:induction false} OnEventsAppend(s: Stream, a: seq<AgentEvent>, b: seq<AgentEvent>)
    ensures OnEvents(s, a + b) == OnEvents(OnEvents(s, a), b)
    decreases |a|
  {
    if a == [] {
      assert a + b == b;
    } else {
      assert (a + b)[1..] == a[1..] + b;
      OnEventsAppend(SendAll(Turn(s, a[0]), EventTexts(a[0])), a[1..], b);
    }
  }

  /** The chunks of these texts go to the current artifact. */
  ghost predicate Sends(before: seq<Chunk>, after: seq<Chunk>, artifact: ArtifactId, texts: seq<string>) {
    && |after| == |before| + |texts| && after[..|before|] == before
    && forall k :: |before| <= k < |after| ==> after[k].artifact == artifact && after[k].text == texts[k - |before|]
  }

  lemma {:induction false} SendAllSends(s: Stream, texts: seq<string>)
    ensures Sends(s.sent, SendAll(s, texts).sent, s.artifact, texts)
    ensures var s' := SendAll(s, texts); s'.artifact == s.artifact && s'.next == s.next && s'.runId == s.runId
    decreases |texts|
  {
    if texts != [] {
      SendAllSends(Send(s, texts[0]), texts[1..]);
      OneSentMore(s.sent, Chunk(s.artifact, texts[0], s.hasStreamed), SendAll(s, texts).sent, texts);
    }
  }

  lemma OneSentMore(before: seq<Chunk>, u: Chunk, after: seq<Chunk>, texts: seq<string>)
    requires texts != [] && u.text == texts[0] && Sends(before + [u], after, u.artifact, texts[1..])
    ensures Sends(before, after, u.artifact, texts)
  {
    var more := before + [u];
    assert |more| == |before| + 1 && after[..|more|] == more;
    assert after[..|before|] == more[..|before|] == before;
    assert after[|before|] == more[|before|] == u;
    forall k | |before| <= k < |after| ensures after[k].artifact == u.artifact && after[k].text == texts[k - |before|] {
      if k > |before| { assert texts[1..][k - |more|] == texts[k - |before|]; }
    }
  }

  lemma LastEvent(events: seq<AgentEvent>)
    requires events != []
    ensures var front, last := events[..|events| - 1], events[|events| - 1];
            OnEvents(Start, events) == SendAll(Turn(OnEvents(Start, front), last), EventTexts(last))
  {
    var front, last := events[..|events| - 1], events[|events| - 1];
    assert events == front + [last] && [last][1..] == [];
    OnEventsAppend(Start, front, [last]);
  }

  lemma {:induction false} ArtifactIs(events: seq<AgentEvent>)
    ensures var s := OnEvents(Start, events);
            s.artifact == Switches(events) && s.next == s.artifact + 1 && s.runId == LastRun(events)
    decreases |events|
  {
    if events != [] {
      var front, last := events[..|events| - 1], events[|events| - 1];
      ArtifactIs(front);
      LastEvent(events);
      SendAllSends(Turn(OnEvents(Start, front), last), EventTexts(last));
    }
  }

  /** Each event sends the chunks of its texts behind those sent before, to the artifact whose
      number is how often the run id has switched up to and including the event: so two
      chunks share an artifact if and only if it did not switch between them. */
  lemma EventSends(events: seq<AgentEvent>)
    requires events != []
    ensures var front, last := events[..|events| - 1], events[|events| - 1];
            Sends(OnEvents(Start, front).sent, OnEvents(Start, events).sent, Switches(events), EventTexts(last))
  {
    var front, last := events[..|events| - 1], events[|events| - 1];
    LastEvent(events);
    ArtifactIs(events);
    SendAllSends(Turn(OnEvents(Start, front), last), EventTexts(last));
  }

  // ---- the terminal message

  /** A part of the request's message: with a text (perhaps empty), with a text that is not
      a string and not falsy, or without any. */
  datatype MessagePart = Said(text: string) | NotAString | Silent

  /** What the agent makes of a text: an exception before its stream starts, or a stream
      that yields some events and then ends or raises. */
  datatype Course = Unprepared(error: string) | Streamed(events: seq<AgentEvent>, failure: Option<string>)

  /** A request may lack a message, or its message the list of parts.  `blocked` is what the
      injection check says of the text, if it objects. */
  datatype Request = Request(parts: Option<seq<MessagePart>>, blocked: Option<string>, course: Course)

  /** Without a list of parts the code iterates over the request context instead, which
      raises; joining raises on a text that is not a string. */
  predicate Readable(parts: Option<seq<MessagePart>>) {
    parts.Some? && NotAString !in parts.value
  }

  predicate Says(p: MessagePart) { p.Said? && p.text != "" }

  function Saying(p: MessagePart): string { if p.Said? then p.text else "" }

  /** The texts that are not empty, joined by spaces. */
  function Spaced(parts: seq<MessagePart>): string {
    Text.Glue(FilterMap(parts, Says, Saying), " ")
  }

  /** `extract_message_text`; nothing if it raises. */
  function MessageText(u: Regex.Unicode, parts: Option<seq<MessagePart>>): Option<string> {
    if Readable(parts) then Some(Text.Strip(u, Spaced(parts.value))) else None
  }

  /** The texts that are not empty, verbatim and in order, with a space between any two and
      without the blanks at both ends. */
  lemma MessageTextIs(u: Regex.Unicode, parts: seq<MessagePart>) returns (at: seq<nat>, texts: seq<string>)
    requires NotAString !in parts
    ensures Picks(parts, (p: MessagePart) => p.Said? && p.text != "", Saying, at, texts)
    ensures MessageText(u, Some(parts)) == Some(Text.Strip(u, Text.Glue(texts, " ")))
  {
    texts := FilterMap(parts, Says, Saying);
    at := FilterMapPicks(parts, Says, Saying);
    assert AreAll(parts, (p: MessagePart) => p.Said? && p.text != "", at);
  }

  datatype QueueEvent = Working | Update(chunk: Chunk) | Terminal(text: string)

  function FinalText(u: Regex.Unicode, accumulated: seq<string>, redact: bool): string {
    var stripped := Text.Strip(u, Flatten(accumulated));
    var text := if stripped == "" then "(no response generated)" else stripped;
    if redact then Redaction.Redacted(u, text).0 else text
  }

  function Updates(chunks: seq<Chunk>): seq<QueueEvent> {
    seq(|chunks|, i requires 0 <= i < |chunks| => Update(chunks[i]))
  }

  /** The queue events of one execution; `guarded` is the compliance mode, in which texts are
      checked and answers redacted. */
  function Emitted(u: Regex.Unicode, request: Request, guarded: bool): seq<QueueEvent> {
    var text := MessageText(u, request.parts);
    if text.None? then []
    else if text.value == "" then [Terminal("Error: message contained no text content.")]
    else if guarded && request.blocked.Some? then [Terminal("Request blocked: " + request.blocked.value)]
    else
      match request.course
      case Unprepared(error) => [Terminal("Agent error: " + error)]
      case Streamed(events, failure) =>
        var s := OnEvents(Start, events);
        [Working] + Updates(s.sent) +
        [Terminal(if failure.Some? then "Agent error: " + failure.value else FinalText(u, s.accumulated, guarded))]
  }

  /** What the execution returns: the final text, or "" if there is none. */
  function Returned(u: Regex.Unicode, request: Request, guarded: bool): string {
    var text := MessageText(u, request.parts);
    if text.Some? && text.value != "" && !(guarded && request.blocked.Some?)
       && request.course.Streamed? && request.course.failure.None?
    then FinalText(u, OnEvents(Start, request.course.events).accumulated, guarded)
    else ""
  }

  function Terminals(events: seq<QueueEvent>): nat {
    if events == [] then 0 else (if events[0].Terminal? then 1 else 0) + Terminals(events[1..])
  }

  lemma {:induction false} TerminalsAppend(a: seq<QueueEvent>, b: seq<QueueEvent>)
    ensures Terminals(a + b) == Terminals(a) + Terminals(b)
  {
    if a == [] {
      assert a + b == b;
    } else {
      assert (a + b)[1..] == a[1..] + b;
      TerminalsAppend(a[1..], b);
    }
  }

  lemma {:induction false} UpdatesAreNotTerminal(chunks: seq<Chunk>)
    ensures Terminals(Updates(chunks)) == 0
  {
    if chunks != [] {
      assert Updates(chunks)[1..] == Updates(chunks[1..]);
      UpdatesAreNotTerminal(chunks[1..]);
    }
  }

  /** An execution emits exactly one terminal message, and last, if and only if the message
      has a list of parts in which every text is a string; otherwise it emits nothing at
      all and raises. */
  lemma OneTerminalMessage(u: Regex.Unicode, request: Request, guarded: bool)
    ensures var q := Emitted(u, request, guarded);
            && Terminals(q) == (if Readable(request.parts) then 1 else 0)
            && (q != [] <==> Readable(request.parts))
            && (q != [] ==> q[|q| - 1].Terminal?)
  {
    if request.course.Streamed? {
      var s := OnEvents(Start, request.course.events);
      StreamEndsTerminal(s.sent, if request.course.failure.Some? then "Agent error: " + request.course.failure.value
                                 else FinalText(u, s.accumulated, guarded));
    }
  }

  lemma StreamEndsTerminal(sent: seq<Chunk>, text: string)
    ensures Terminals([Working] + Updates(sent) + [Terminal(text)]) == 1
  {
    TerminalsAppend([Working] + Updates(sent), [Terminal(text)]);
    TerminalsAppend([Working], Updates(sent));
    UpdatesAreNotTerminal(sent);
    assert Terminals([Terminal(text)]) == 1 && Terminals([Working]) == 0;
  }

  /** The terminal message of a stream that ends is never empty; in compliance mode nothing
      in it has a shape of the redaction table; without it, it is what a streaming client
      has, stripped, or the stock phrase if that is blank. */
  lemma FinalMessage(u: Regex.Unicode, events: seq<AgentEvent>, redact: bool)
    ensures var s := OnEvents(Start, events);
            var c := ReceiveAll(NoArtifacts, s.sent);
            var t := FinalText(u, s.accumulated, redact);
            && t != ""
            && (redact ==> Shapes.NoShape(u, t))
            && (forall a :: a in c.order ==> a in c.texts)
            && (!redact ==> var shown := Text.Strip(u, Joined(c.order, c.texts));
                            t == if shown == "" then "(no response generated)" else shown)
  {
    var at := ClientSeesTheText(events);
    var s := OnEvents(Start, events);
    if redact {
      var plain := FinalText(u, s.accumulated, false);
      Redaction.NoShapeRemains(u, plain);
      var cuts := Redaction.OnlyShapesAreReplaced(u, plain);
      assert cuts.Cut? ==> |"[REDACTED:"| > 0;
    }
  }

  /** What an execution answers and returns: for a readable request with a text that is not
      blocked, the error that ended the agent's preparation or its stream, and then it returns
      nothing; otherwise the final text, which it sends last and returns. */
  lemma AnswerIs(u: Regex.Unicode, request: Request, guarded: bool)
    requires Readable(request.parts)
    ensures var q := Emitted(u, request, guarded);
            && q != []
            && match request.course
               case Unprepared(error) =>
                 && Returned(u, request, guarded) == ""
                 && (Answers(u, request, guarded) ==> q == [Terminal("Agent error: " + error)])
               case Streamed(events, failure) =>
                 Answers(u, request, guarded) ==>
                   var sent := OnEvents(Start, events).sent;
                   && |q| == |sent| + 2 && q[0] == Working
                   && (forall i :: 0 <= i < |sent| ==> q[i + 1] == Update(sent[i]))
                   && (failure.Some? ==> q[|q| - 1] == Terminal("Agent error: " + failure.value))
                   && (failure.None? ==> q[|q| - 1] == Terminal(Returned(u, request, guarded)))
    ensures Returned(u, request, guarded) != "" <==>
            Answers(u, request, guarded) && request.course.Streamed? && request.course.failure.None?
  {
    if Answers(u, request, guarded) && request.course.Streamed? {
      FinalMessage(u, request.course.events, guarded);
    }
  }

  /** The text is not blank, and in compliance mode not objected to. */
  predicate Answers(u: Regex.Unicode, request: Request, guarded: bool) {
    var text := MessageText(u, request.parts);
    text.Some? && text.value != "" && (guarded ==> request.blocked.None?)
  }

  /** A request without text, or one that is blocked, gets just the message that says so. */
  lemma RefusalIs(u: Regex.Unicode, request: Request, guarded: bool)
    requires Readable(request.parts) && !Answers(u, request, guarded)
    ensures Emitted(u, request, guarded) ==
            [Terminal(if MessageText(u, request.parts) == Some("") then "Error: message contained no text content."
                      else "Request blocked: " + request.blocked.value)]
    ensures Returned(u, request, guarded) == ""
  {
  }

  // ---- the code

  class EventQueue {
    var events: seq<QueueEvent>

    constructor ()
      ensures events == []
    {
      events := [];
    }

    method Enqueue(e: QueueEvent)
      modifies this
      ensures events == old(events) + [e]
    {
      events := events + [e];
    }
  }

  lemma UpdatesAppend(chunks: seq<Chunk>, c: Chunk)
    ensures Updates(chunks + [c]) == Updates(chunks) + [Update(c)]
  {
  }

  /** These are the texts of the stream's text blocks and strings that are not empty, verbatim
      and in order. */
  ghost predicate IsTextOf(events: seq<AgentEvent>, texts: seq<string>) {
    exists at :: Picks(AllBlocks(events), Speaks, TextOf, at, texts)
  }

  lemma TextIsAccumulated(events: seq<AgentEvent>)
    ensures IsTextOf(events, OnEvents(Start, events).accumulated)
  {
    var at := ClientSeesTheText(events);
  }

  /** The loop over the agent's events. */
  method StreamTokens(events: seq<AgentEvent>, queue: EventQueue) returns (accumulated: seq<string>)
    modifies queue
    ensures var s := OnEvents(Start, events);
            queue.events == old(queue.events) + Updates(s.sent) && accumulated == s.accumulated
    ensures IsTextOf(events, accumulated)
  {
    var artifactId, nextId, hasStreamed := 0, 1, false;
    var currentRunId: Option<string> := None;
    accumulated := [];
    ghost var sent: seq<Chunk> := [];
    ghost var end := OnEvents(Start, events);
    assert events[0..] == events && Updates([]) == [];
    assert queue.events == old(queue.events) + Updates(sent);
    for i := 0 to |events|
      invariant OnEvents(Stream(artifactId, nextId, hasStreamed, currentRunId, sent, accumulated), events[i..]) == end
      invariant queue.events == old(queue.events) + Updates(sent)
    {
      var e := events[i];
      assert events[i..][0] == e && events[i..][1..] == events[i + 1..];
      if e.ModelStream? {
        if e.runId != "" && currentRunId != Some(e.runId) {
          currentRunId := Some(e.runId);
          artifactId, nextId := nextId, nextId + 1;
          hasStreamed := false;
        }
        if e.chunk.Some? {
          var texts := ChunkTexts(e.chunk.value);
          ghost var after := SendAll(Stream(artifactId, nextId, hasStreamed, currentRunId, sent, accumulated), texts);
          assert texts[0..] == texts;
          for k := 0 to |texts|
            invariant SendAll(Stream(artifactId, nextId, hasStreamed, currentRunId, sent, accumulated),
                              texts[k..]) == after
            invariant queue.events == old(queue.events) + Updates(sent)
          {
            assert texts[k..][0] == texts[k] && texts[k..][1..] == texts[k + 1..];
            UpdatesAppend(sent, Chunk(artifactId, texts[k], hasStreamed));
            queue.Enqueue(Update(Chunk(artifactId, texts[k], hasStreamed)));
            sent := sent + [Chunk(artifactId, texts[k], hasStreamed)];
            hasStreamed := true;
            accumulated := accumulated + [texts[k]];
          }
        }
      }
    }
    TextIsAccumulated(events);
  }

  /** The stream of a text and the message after it. */
  method ExecuteStream(u: Regex.Unicode, events: seq<AgentEvent>, failure: Option<string>, guarded: bool,
                       queue: EventQueue)
    returns (final: string)
    modifies queue
    ensures var s := OnEvents(Start, events);
            queue.events == old(queue.events) +
              ([Working] + Updates(s.sent) +
               [Terminal(if failure.Some? then "Agent error: " + failure.value
                         else FinalText(u, s.accumulated, guarded))])
    ensures final == if failure.None? then FinalText(u, OnEvents(Start, events).accumulated, guarded) else ""
  {
    ghost var before, sent := queue.events, OnEvents(Start, events).sent;
    queue.Enqueue(Working);
    var accumulated := StreamTokens(events, queue);
    ghost var middle := queue.events;
    assert middle == before + [Working] + Updates(sent);
    if failure.Some? {
      queue.Enqueue(Terminal("Agent error: " + failure.value));
      FourJoined(before, [Working], Updates(sent), [Terminal("Agent error: " + failure.value)]);
      return "";
    }
    final := Text.Strip(u, Flatten(accumulated));
    if final == "" {
      final := "(no response generated)";
    }
    if guarded {
      var found;
      final, found := Redaction.RedactPii(u, final);
    }
    queue.Enqueue(Terminal(final));
    FourJoined(before, [Working], Updates(sent), [Terminal(final)]);
  }

  lemma FourJoined(a: seq<QueueEvent>, b: seq<QueueEvent>, c: seq<QueueEvent>, d: seq<QueueEvent>)
    ensures a + b + c + d == a + (b + c + d)
  {
  }

  /** `_core_execute`: the queue gets exactly the events of `Emitted`; `ok` is false if an
      exception leaves it. */
  method CoreExecute(u: Regex.Unicode, request: Request, guarded: bool, queue: EventQueue)
    returns (ok: bool, final: string)
    modifies queue
    ensures queue.events == old(queue.events) + Emitted(u, request, guarded)
    ensures ok == Readable(request.parts) && final == Returned(u, request, guarded)
  {
    var text := MessageText(u, request.parts);
    if text.None? {
      return false, "";
    }
    if text.value == "" {
      queue.Enqueue(Terminal("Error: message contained no text content."));
      return true, "";
    }
    if guarded && request.blocked.Some? {
      queue.Enqueue(Terminal("Request blocked: " + request.blocked.value));
      return true, "";
    }
    match request.course
    case Unprepared(error) =>
      queue.Enqueue(Terminal("Agent error: " + error));
      return true, "";
    case Streamed(events, failure) =>
      final := ExecuteStream(u, events, failure, guarded, queue);
      return true, final;
  }
}
