/**
 * The tutor page's state and its handlers (Shuaib/App.tsx): the session
 * collection, the current session, the pending input and attachment, the
 * loading flag that keeps turns from overlapping, and the chat handle.
 * React's functional state updates are applied one after another, and the
 * save effect runs after each change of the collection.
 */
module ChatApp {
  import opened Wrappers
  import opened Types
  import JsText
  import opened GeminiService
  import opened SessionStore
  import opened Persistence

  /**
   * The six clock readings the synchronous part of one send takes, each a
   * separate call: `Date.now()` for the user message's id, the new session's
   * id and the placeholder's id (the `Stamp` fields), and `new Date()` for the
   * user message's timestamp, the session's last-modified time and the
   * placeholder's timestamp (the `Time` fields).
   */
  datatype SendClock = SendClock(userStamp: Instant, userTime: Instant,
                                 sessionStamp: Instant, sessionTime: Instant,
                                 botStamp: Instant, botTime: Instant)

  /** What the synchronous part of a send hands to the streaming part. */
  datatype Turn = Turn(target: string, botId: string, text: string, attachment: Option<Attachment>, chat: Chat)

  /** `(customInput || input).trim()`: an empty custom text falls back to the input box. */
  function TextToSend(customInput: Option<string>, input: string): (text: string)
  {
    JsText.Trim(if customInput.Some? && customInput.value != "" then customInput.value else input)
  }

  /**
   * The text a send uses starts and ends with something other than white
   * space, and is empty exactly when the chosen text is all white space.
   */
  lemma TextToSendBlank(customInput: Option<string>, input: string)
    ensures var chosen := if customInput.Some? && customInput.value != "" then customInput.value else input;
      && JsText.Trimmed(TextToSend(customInput, input))
      && (TextToSend(customInput, input) == "" <==> JsText.AllSpace(chosen))
  {
    JsText.TrimShape(if customInput.Some? && customInput.value != "" then customInput.value else input);
  }

  /** The send guard: nothing to send, or a send already in flight. */
  predicate Refuses(text: string, attachment: Option<Attachment>, isLoading: bool)
  {
    (text == "" && attachment.None?) || isLoading
  }

  /** `!targetId` is false only for a non-empty current id. */
  predicate HasTarget(current: Option<string>)
  {
    current.Some? && current.value != ""
  }

  /** The session the send goes to: the current one, or a new one named after the clock. */
  function TargetOf(current: Option<string>, clock: SendClock): string
  {
    if HasTarget(current) then current.value else JsText.NatToString(clock.sessionStamp)
  }

  /** The user's message: its id and its timestamp come from two separate clock readings. */
  function UserMessage(clock: SendClock, text: string, attachment: Option<Attachment>): Message
  {
    Message(JsText.NatToString(clock.userStamp), User, text, attachment, clock.userTime)
  }

  /** The empty model message the reply streams into; its id is one past its own clock reading. */
  function Placeholder(clock: SendClock): Message
  {
    Message(JsText.NatToString(clock.botStamp + 1), Model, "", None, clock.botTime)
  }

  /** The collection once a send has added the user message: to a new session in front, or to the current one. */
  function WithUser(ss: seq<ChatSession>, current: Option<string>, text: string,
                    attachment: Option<Attachment>, clock: SendClock): seq<ChatSession>
  {
    var user := UserMessage(clock, text, attachment);
    if HasTarget(current) then UpdateWhere(ss, current.value, AddMessage(user, clock.sessionTime))
    else [NewSession(JsText.NatToString(clock.sessionStamp), text, user, clock.sessionTime)] + ss
  }

  /** The collection once a send has added the user message and the placeholder. */
  function WithTurn(ss: seq<ChatSession>, current: Option<string>, text: string,
                    attachment: Option<Attachment>, clock: SendClock): seq<ChatSession>
  {
    UpdateWhere(WithUser(ss, current, text, attachment, clock), TargetOf(current, clock), AddPlaceholder(Placeholder(clock)))
  }

  /**
   * A send with no current session puts a new session in front, titled from
   * the text, tagged General, holding the user message and the placeholder;
   * every older session with another id stays as it was, in its place.
   */
  lemma NewSessionTurn(ss: seq<ChatSession>, current: Option<string>, text: string,
                       attachment: Option<Attachment>, clock: SendClock)
    requires !HasTarget(current)
    ensures var r := WithTurn(ss, current, text, attachment, clock);
      && |r| == |ss| + 1
      && r[0] == ChatSession(JsText.NatToString(clock.sessionStamp), Title(text), General,
                            [UserMessage(clock, text, attachment), Placeholder(clock)], clock.sessionTime)
      && forall i :: 0 <= i < |ss| && ss[i].id != JsText.NatToString(clock.sessionStamp) ==> r[i + 1] == ss[i]
  {
    var target := TargetOf(current, clock);
    var withUser := [NewSession(target, text, UserMessage(clock, text, attachment), clock.sessionTime)] + ss;
    forall i | 0 <= i < |ss| && ss[i].id != target
      ensures WithTurn(ss, current, text, attachment, clock)[i + 1] == ss[i]
    {
      assert withUser[i + 1] == ss[i];
    }
  }

  /**
   * A send to the current session appends the user message and then the
   * placeholder to it, and refreshes its last-modified time; every session
   * with another id stays as it was.
   */
  lemma ExistingSessionTurn(ss: seq<ChatSession>, current: Option<string>, text: string,
                            attachment: Option<Attachment>, clock: SendClock)
    requires HasTarget(current)
    ensures var r := WithTurn(ss, current, text, attachment, clock);
      && |r| == |ss|
      && forall i :: 0 <= i < |ss| ==>
           if ss[i].id == current.value then
             r[i] == ss[i].(messages := ss[i].messages + [UserMessage(clock, text, attachment), Placeholder(clock)],
                            lastModified := clock.sessionTime)
           else r[i] == ss[i]
  {
    var r := WithTurn(ss, current, text, attachment, clock);
    forall i | 0 <= i < |ss| && ss[i].id == current.value
      ensures r[i].messages == ss[i].messages + [UserMessage(clock, text, attachment), Placeholder(clock)]
    {
      assert ss[i].messages + [UserMessage(clock, text, attachment)] + [Placeholder(clock)]
          == ss[i].messages + [UserMessage(clock, text, attachment), Placeholder(clock)];
    }
  }

  /**
   * After a whole send that starts a new session, the new session holds the
   * user message, then the reply: all fragments joined, or the failure text
   * alone when the stream failed.
   */
  lemma NewSessionReply(ss: seq<ChatSession>, current: Option<string>, text: string,
                        attachment: Option<Attachment>, clock: SendClock, fragments: seq<string>, failed: bool)
    requires !HasTarget(current)
    requires clock.userStamp <= clock.botStamp
    ensures var p := Placeholder(clock);
      var r := Streamed(WithTurn(ss, current, text, attachment, clock), TargetOf(current, clock), p.id, fragments, failed);
      r[0].messages == [UserMessage(clock, text, attachment), p.(content := ReplyText(fragments, failed))]
  {
    NewSessionTurn(ss, current, text, attachment, clock);
    var w := WithTurn(ss, current, text, attachment, clock);
    var p := Placeholder(clock);
    var u := UserMessage(clock, text, attachment);
    StreamedFrame(w, TargetOf(current, clock), p.id, fragments, failed, 0, 0);
    StreamedReply(w, TargetOf(current, clock), p.id, fragments, failed, 0, 1);
    JsText.NatToStringInjective(clock.userStamp, clock.botStamp + 1);
  }

  /**
   * After a whole send to the current session, each session with that id
   * ends with the user message and then the reply, provided no earlier
   * message there shares the placeholder's clock-derived id.
   */
  lemma ExistingSessionReply(ss: seq<ChatSession>, current: Option<string>, text: string,
                             attachment: Option<Attachment>, clock: SendClock,
                             fragments: seq<string>, failed: bool, i: nat)
    requires HasTarget(current) && i < |ss| && ss[i].id == current.value
    requires clock.userStamp <= clock.botStamp
    requires forall m :: m in ss[i].messages ==> m.id != Placeholder(clock).id
    ensures var p := Placeholder(clock);
      var r := Streamed(WithTurn(ss, current, text, attachment, clock), current.value, p.id, fragments, failed);
      && |r| == |ss|
      && r[i] == ss[i].(messages := ss[i].messages + [UserMessage(clock, text, attachment), p.(content := ReplyText(fragments, failed))],
                        lastModified := clock.sessionTime)
  {
    ExistingSessionTurn(ss, current, text, attachment, clock);
    var w := WithTurn(ss, current, text, attachment, clock);
    var p := Placeholder(clock);
    var u := UserMessage(clock, text, attachment);
    JsText.NatToStringInjective(clock.userStamp, clock.botStamp + 1);
    var n := |ss[i].messages|;
    var r := Streamed(w, current.value, p.id, fragments, failed);
    var expected := ss[i].messages + [u, p.(content := ReplyText(fragments, failed))];
    forall k | 0 <= k < n + 2 ensures r[i].messages[k] == expected[k] {
      StreamedFrame(w, current.value, p.id, fragments, failed, i, k);
      if k < n {
        assert w[i].messages[k] == ss[i].messages[k];
        assert ss[i].messages[k] in ss[i].messages;
      } else if k == n + 1 {
        StreamedReply(w, current.value, p.id, fragments, failed, i, k);
      }
    }
    StreamedFrame(w, current.value, p.id, fragments, failed, i, 0);
  }

  class App {
    var sessions: seq<ChatSession>
    var currentSessionId: Option<string>
    var input: string
    var attachment: Option<Attachment>
    var isLoading: bool
    var chat: Chat
    var storage: Stored

    /** The local store always mirrors the collection (the save effect). */
    ghost predicate Valid()
      reads this
    {
      storage == Save(sessions)
    }

    /** Mounting the page: load the stored sessions, then save them back. */
    constructor Mount(stored: Stored)
      ensures Valid()
      ensures sessions == Load(stored)
      ensures currentSessionId == None && input == "" && attachment == None && !isLoading
      ensures chat == CreateChatSession([])
    {
      var loaded := Load(stored);
      sessions := loaded;
      currentSessionId := None;
      input := "";
      attachment := None;
      isLoading := false;
      chat := CreateChatSession([]);
      storage := Save(loaded);
    }

    /** Typing into the message box. */
    method SetInput(text: string)
      requires Valid()
      modifies this
      ensures Valid()
      ensures input == text
      ensures sessions == old(sessions) && currentSessionId == old(currentSessionId)
      ensures attachment == old(attachment) && isLoading == old(isLoading) && chat == old(chat)
    {
      input := text;
    }

    /** A capture replacing the pending attachment, or the remove button clearing it. */
    method SetAttachment(a: Option<Attachment>)
      requires Valid()
      modifies this
      ensures Valid()
      ensures attachment == a
      ensures sessions == old(sessions) && currentSessionId == old(currentSessionId)
      ensures input == old(input) && isLoading == old(isLoading) && chat == old(chat)
    {
      attachment := a;
    }

    /**
     * Lines 190-216 of `handleSend`: the user message goes to the current
     * session, or to a new session in front that becomes current, with a
     * chat handle seeded with that one message.
     */
    method AddUserMessage(text: string, clock: SendClock) returns (target: string)
      requires Valid()
      modifies this
      ensures Valid()
      ensures target == TargetOf(old(currentSessionId), clock)
      ensures sessions == WithUser(old(sessions), old(currentSessionId), text, old(attachment), clock)
      ensures currentSessionId == Some(target)
      ensures chat == (if HasTarget(old(currentSessionId)) then old(chat)
                       else CreateChatSession([UserMessage(clock, text, old(attachment))]))
      ensures input == old(input) && attachment == old(attachment) && isLoading == old(isLoading)
    {
      target := TargetOf(currentSessionId, clock);
      var userMsg := UserMessage(clock, text, attachment);
      if !HasTarget(currentSessionId) {
        sessions := [NewSession(target, text, userMsg, clock.sessionTime)] + sessions;
        currentSessionId := Some(target);
        chat := CreateChatSession([userMsg]);
      } else {
        sessions := UpdateWhere(sessions, target, AddMessage(userMsg, clock.sessionTime));
      }
      storage := Save(sessions);
    }

    /**
     * The synchronous part of `handleSend`, up to the start of the stream:
     * the guard, the user message, the cleared input, the loading flag and
     * the placeholder.
     */
    method BeginSend(customInput: Option<string>, clock: SendClock) returns (turn: Option<Turn>)
      requires Valid()
      modifies this
      ensures Valid()
      ensures var text := TextToSend(customInput, old(input));
        if Refuses(text, old(attachment), old(isLoading)) then
          && turn == None
          && sessions == old(sessions) && currentSessionId == old(currentSessionId)
          && input == old(input) && attachment == old(attachment)
          && isLoading == old(isLoading) && chat == old(chat)
        else
          var target := TargetOf(old(currentSessionId), clock);
          && turn == Some(Turn(target, Placeholder(clock).id, text, old(attachment), chat))
          && sessions == WithTurn(old(sessions), old(currentSessionId), text, old(attachment), clock)
          && currentSessionId == Some(target)
          && chat == (if HasTarget(old(currentSessionId)) then old(chat)
                      else CreateChatSession([UserMessage(clock, text, old(attachment))]))
          && input == "" && attachment == None && isLoading
    {
      var text := TextToSend(customInput, input);
      if Refuses(text, attachment, isLoading) {
        return None;
      }
      var targetId := AddUserMessage(text, clock);
      var activeAttachment := attachment;
      input := "";
      attachment := None;
      isLoading := true;
      var botMsg := Placeholder(clock);
      sessions := UpdateWhere(sessions, targetId, AddPlaceholder(botMsg));
      storage := Save(sessions);
      turn := Some(Turn(targetId, botMsg.id, text, activeAttachment, chat));
    }

    /**
     * The `for await` loop of `handleSend`: each fragment is added to the
     * accumulated text, which then replaces the reply message's content.
     */
    method FoldFragments(target: string, botId: string, fragments: seq<string>)
      requires Valid()
      modifies this
      ensures Valid()
      ensures sessions == Streamed(old(sessions), target, botId, fragments, false)
      ensures currentSessionId == old(currentSessionId) && input == old(input)
      ensures attachment == old(attachment) && isLoading == old(isLoading) && chat == old(chat)
    {
      ghost var start := sessions;
      var responseText := "";
      var i := 0;
      while i < |fragments|
        invariant 0 <= i <= |fragments|
        invariant responseText == Concat(fragments[..i])
        invariant sessions == Streamed(start, target, botId, fragments[..i], false)
        invariant Valid()
        invariant currentSessionId == old(currentSessionId) && input == old(input)
        invariant attachment == old(attachment) && isLoading == old(isLoading) && chat == old(chat)
      {
        assert fragments[..i + 1] == fragments[..i] + [fragments[i]];
        responseText := responseText + fragments[i];
        StreamedStep(start, target, botId, fragments[..i], fragments[i]);
        sessions := UpdateWhere(sessions, target, SetContent(botId, responseText));
        storage := Save(sessions);
        i := i + 1;
      }
      assert fragments[..i] == fragments;
    }

    /** The `catch` of `handleSend`: the reply message shows the failure text. */
    method ShowFailure(target: string, botId: string)
      requires Valid()
      modifies this
      ensures Valid()
      ensures sessions == UpdateWhere(old(sessions), target, SetContent(botId, FailureText))
      ensures currentSessionId == old(currentSessionId) && input == old(input)
      ensures attachment == old(attachment) && isLoading == old(isLoading) && chat == old(chat)
    {
      sessions := UpdateWhere(sessions, target, SetContent(botId, FailureText));
      storage := Save(sessions);
    }

    /**
     * The streaming part of `handleSend`: send the turn, fold each fragment
     * into the placeholder as the text accumulated so far, overwrite it with
     * the failure text if the stream fails, and clear the loading flag.
     * It returns the parts handed to the remote chat.
     */
    method Stream(turn: Turn, reply: Reply) returns (request: seq<Part>)
      requires Valid()
      modifies this
      ensures Valid()
      ensures IsOutgoing(request, turn.text, turn.attachment)
      ensures sessions == Streamed(old(sessions), turn.target, turn.botId, Yielded(reply.chunks), reply.fails)
      ensures !isLoading
      ensures currentSessionId == old(currentSessionId) && input == old(input)
      ensures attachment == old(attachment) && chat == old(chat)
    {
      var fragments, failed;
      request, fragments, failed := SendMessageStream(turn.chat, turn.text, turn.attachment, reply);
      YieldedExactly(fragments, reply.chunks);
      ghost var start := sessions;
      FoldFragments(turn.target, turn.botId, fragments);
      if failed {
        StreamedFailure(start, turn.target, turn.botId, fragments);
        ShowFailure(turn.target, turn.botId);
      }
      isLoading := false;
    }

    /** `handleSend`: both parts, with the reply the remote service gives. */
    method HandleSend(customInput: Option<string>, clock: SendClock, reply: Reply) returns (request: Option<seq<Part>>)
      requires Valid()
      modifies this
      ensures Valid()
      ensures var text := TextToSend(customInput, old(input));
        if Refuses(text, old(attachment), old(isLoading)) then
          && request == None
          && sessions == old(sessions) && currentSessionId == old(currentSessionId)
          && input == old(input) && attachment == old(attachment)
          && isLoading == old(isLoading) && chat == old(chat)
        else
          var target := TargetOf(old(currentSessionId), clock);
          && request.Some? && IsOutgoing(request.value, text, old(attachment))
          && sessions == Streamed(WithTurn(old(sessions), old(currentSessionId), text, old(attachment), clock),
                                  target, Placeholder(clock).id, Yielded(reply.chunks), reply.fails)
          && currentSessionId == Some(target)
          && chat == (if HasTarget(old(currentSessionId)) then old(chat)
                      else CreateChatSession([UserMessage(clock, text, old(attachment))]))
          && input == "" && attachment == None && !isLoading
    {
      var turn := BeginSend(customInput, clock);
      if turn.Some? {
        var parts := Stream(turn.value, reply);
        request := Some(parts);
      } else {
        request := None;
      }
    }

    /**
     * `deleteSession(id)` after the confirmation dialog: on confirmation the
     * sessions with that id go, and the current session is cleared, with a
     * fresh chat handle, only if it was that id.
     */
    method DeleteSession(id: string, confirmed: bool)
      requires Valid()
      modifies this
      ensures Valid()
      ensures sessions == (if confirmed then Without(old(sessions), id) else old(sessions))
      ensures currentSessionId == (if confirmed && old(currentSessionId) == Some(id) then None else old(currentSessionId))
      ensures chat == (if confirmed && old(currentSessionId) == Some(id) then CreateChatSession([]) else old(chat))
      ensures input == old(input) && attachment == old(attachment) && isLoading == old(isLoading)
    {
      if confirmed {
        sessions := Without(sessions, id);
        storage := Save(sessions);
        if currentSessionId == Some(id) {
          currentSessionId := None;
          chat := CreateChatSession([]);
        }
      }
    }

    /** `handleNewChat`: no current session, a fresh chat handle, nothing pending. */
    method HandleNewChat()
      requires Valid()
      modifies this
      ensures Valid()
      ensures currentSessionId == None && chat == CreateChatSession([])
      ensures attachment == None && input == ""
      ensures sessions == old(sessions) && isLoading == old(isLoading)
    {
      currentSessionId := None;
      chat := CreateChatSession([]);
      attachment := None;
      input := "";
    }

    /** `selectSession(id)`: make it current and seed a chat with its messages, if it exists. */
    method SelectSession(id: string)
      requires Valid()
      modifies this
      ensures Valid()
      ensures currentSessionId == Some(id)
      ensures chat == CreateChatSession(MessagesFor(sessions, id))
      ensures sessions == old(sessions) && input == old(input)
      ensures attachment == old(attachment) && isLoading == old(isLoading)
    {
      currentSessionId := Some(id);
      chat := CreateChatSession(MessagesFor(sessions, id));
    }
  }
}
