/**
 * The client side of the remote chat model (Shuaib/services/geminiService.ts):
 * turning stored messages into the model's turn format, building the parts of
 * a new turn, and draining the streamed reply into text fragments.
 */
module GeminiService {
  import opened Wrappers
  import opened Types

  /** The text sent in place of an empty message (an attachment sent without words). */
  const DefaultProbe: string := "এই ফাইলটি সম্পর্কে বলো।"

  /** One part of a turn: text, or a binary payload with its MIME type. */
  datatype Part = Text(text: string) | InlineData(data: string, mimeType: string)

  /** One turn of the history, in the remote format. */
  datatype Content = Content(role: Role, parts: seq<Part>)

  /** A chat handle, seen only through the history it was seeded with. */
  datatype Chat = Chat(history: seq<Content>)

  /** One chunk of the streamed response. */
  datatype Chunk = Chunk(text: string)

  /**
   * What the remote service does with one turn: the chunks it delivers, in
   * arrival order, and then either the end of the stream or a failure.
   */
  datatype Reply = Reply(chunks: seq<Chunk>, fails: bool)

  /** The inline part for an attachment: its payload and MIME type, not its display URL. */
  function InlinePart(a: Attachment): Part
  {
    InlineData(a.data, a.mimeType)
  }

  /** The history entry for one message: its text, then its attachment if it has one. */
  function HistoryEntry(m: Message): Content
  {
    var parts := [Text(m.content)];
    Content(m.role, if m.attachment.Some? then parts + [InlinePart(m.attachment.value)] else parts)
  }

  /**
   * `history.map(...)`: one entry per message, in the same order, each keeping
   * the message's role, with the message text as its first part and a second,
   * inline part exactly when the message has an attachment.
   */
  function MapHistory(history: seq<Message>): (h: seq<Content>)
    ensures |h| == |history|
    ensures forall i :: 0 <= i < |history| ==>
      && h[i].role == history[i].role
      && |h[i].parts| == (if history[i].attachment.Some? then 2 else 1)
      && h[i].parts[0] == Text(history[i].content)
      && (history[i].attachment.Some? ==>
            h[i].parts[1] == InlineData(history[i].attachment.value.data, history[i].attachment.value.mimeType))
  {
    if history == [] then [] else [HistoryEntry(history[0])] + MapHistory(history[1..])
  }

  /** Mapping a history piecewise is mapping it whole. */
  lemma {:induction false} MapHistoryAppend(a: seq<Message>, b: seq<Message>)
    ensures MapHistory(a + b) == MapHistory(a) + MapHistory(b)
  {
    if a == [] {
      assert a + b == b;
    } else {
      assert (a + b)[1..] == a[1..] + b;
      MapHistoryAppend(a[1..], b);
    }
  }

  /** The display URL of an attachment never reaches the remote history. */
  lemma HistoryIgnoresUrl(m: Message, url: string)
    requires m.attachment.Some?
    ensures HistoryEntry(m) == HistoryEntry(m.(attachment := Some(m.attachment.value.(url := url))))
  {
  }

  /** `createChatSession(history)`: a handle seeded with the mapped history. */
  function CreateChatSession(history: seq<Message>): (c: Chat)
    ensures |c.history| == |history|
    ensures forall i :: 0 <= i < |history| ==> c.history[i] == HistoryEntry(history[i])
  {
    Chat(MapHistory(history))
  }

  /**
   * The parts of an outgoing turn: the message text, or the default probe when
   * the text is empty, then the attachment's inline part exactly when one is given.
   */
  predicate IsOutgoing(parts: seq<Part>, message: string, attachment: Option<Attachment>)
  {
    && |parts| == (if attachment.Some? then 2 else 1)
    && parts[0] == Text(if message != "" then message else DefaultProbe)
    && (attachment.Some? ==> parts[1] == InlinePart(attachment.value))
  }

  /** No outgoing turn ever carries an empty text part. */
  lemma OutgoingTextNotEmpty(parts: seq<Part>, message: string, attachment: Option<Attachment>)
    requires IsOutgoing(parts, message, attachment)
    ensures forall p :: p in parts && p.Text? ==> p.text != ""
  {
  }

  /** The outgoing parts are determined by the message and the attachment. */
  lemma OutgoingUnique(p: seq<Part>, q: seq<Part>, message: string, attachment: Option<Attachment>)
    requires IsOutgoing(p, message, attachment) && IsOutgoing(q, message, attachment)
    ensures p == q
  {
  }

  /** The text of each chunk, in arrival order. */
  function Yielded(chunks: seq<Chunk>): (fragments: seq<string>)
    ensures |fragments| == |chunks|
    ensures forall k :: 0 <= k < |chunks| ==> fragments[k] == chunks[k].text
  {
    if chunks == [] then [] else [chunks[0].text] + Yielded(chunks[1..])
  }

  /** The drain yields exactly the chunk texts: any pointwise match is that sequence. */
  lemma YieldedExactly(fragments: seq<string>, chunks: seq<Chunk>)
    requires |fragments| == |chunks|
    requires forall k :: 0 <= k < |fragments| ==> fragments[k] == chunks[k].text
    ensures fragments == Yielded(chunks)
  {
  }

  /**
   * `sendMessageStream(chat, message, attachment)`: builds the turn's parts,
   * hands them to the chat (the `request` result), and yields the text of each
   * chunk of the reply as it arrives. A failure of the remote call is not
   * caught here: it reaches the caller after the fragments already yielded.
   */
  method SendMessageStream(chat: Chat, message: string, attachment: Option<Attachment>, reply: Reply)
    returns (request: seq<Part>, fragments: seq<string>, failed: bool)
    ensures IsOutgoing(request, message, attachment)
    ensures |fragments| == |reply.chunks|
    ensures forall k :: 0 <= k < |fragments| ==> fragments[k] == reply.chunks[k].text
    ensures failed == reply.fails
  {
    request := [Text(if message != "" then message else DefaultProbe)];
    if attachment.Some? {
      request := request + [InlinePart(attachment.value)];
    }
    fragments := [];
    var i := 0;
    while i < |reply.chunks|
      invariant 0 <= i <= |reply.chunks|
      invariant |fragments| == i
      invariant forall k :: 0 <= k < i ==> fragments[k] == reply.chunks[k].text
    {
      fragments := fragments + [reply.chunks[i].text];
      i := i + 1;
    }
    failed := reply.fails;
  }
}
