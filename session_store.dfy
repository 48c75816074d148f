/**
 * The session collection as the tutor's page keeps it (Shuaib/App.tsx): the
 * pure transforms handed to `setSessions`, the title rule for a new session,
 * and the closed form of a streamed reply.
 */
module SessionStore {
  import opened Wrappers
  import opened Types
  import JsText

  /** The title of a session whose first message has no text. */
  const DefaultTitle: string := "নতুন চ্যাট"

  /** How many characters of the first message a title keeps. */
  const TitleLength: nat := 35

  /** What the placeholder shows when the reply fails. */
  const FailureText: string := "দুঃখিত, কোনো একটি সমস্যা হ\U{09DF}েছে। দ\U{09DF}া করে আবার চেষ্টা করো।"

  /**
   * The failure text is the 56 code points the page writes, with the
   * precomposed letter U+09DF (not U+09AF followed by U+09BC) in both words
   * that contain it.
   */
  lemma FailureTextExact()
    ensures |FailureText| == 56
    ensures FailureText[26] == '\U{09DF}' && FailureText[33] == '\U{09DF}'
  {
  }

  /**
   * `text.substring(0, 35) || "নতুন চ্যাট"`: the first 35 characters of the
   * (trimmed) first message, or the default title when there are none.
   */
  function Title(text: string): (t: string)
    ensures t != []
    ensures text == [] ==> t == DefaultTitle
    ensures text != [] ==> t <= text && |t| == (if |text| < TitleLength then |text| else TitleLength)
  {
    var cut := JsText.Substring0(text, TitleLength);
    if cut == [] then DefaultTitle else cut
  }

  /** The session created lazily by the first send. */
  function NewSession(id: string, text: string, first: Message, now: Instant): ChatSession
  {
    ChatSession(id, Title(text), General, [first], now)
  }

  /** `m.id === id ? { ...m, content } : m`, over a message list. */
  function SetContentWhere(ms: seq<Message>, id: string, content: string): (r: seq<Message>)
    ensures |r| == |ms|
    ensures forall i :: 0 <= i < |ms| ==>
      r[i] == if ms[i].id == id then ms[i].(content := content) else ms[i]
  {
    if ms == [] then [] else
      [if ms[0].id == id then ms[0].(content := content) else ms[0]] + SetContentWhere(ms[1..], id, content)
  }

  /** The three edits handleSend makes to the sessions it targets. */
  datatype Edit =
    | AddMessage(m: Message, now: Instant)      // the user message; lastModified is refreshed
    | AddPlaceholder(m: Message)                // the empty model message; lastModified untouched
    | SetContent(messageId: string, text: string) // overwrite the content of the reply message

  function Apply(e: Edit, s: ChatSession): ChatSession
  {
    match e
    case AddMessage(m, now) => s.(messages := s.messages + [m], lastModified := now)
    case AddPlaceholder(m) => s.(messages := s.messages + [m])
    case SetContent(mid, text) => s.(messages := SetContentWhere(s.messages, mid, text))
  }

  /**
   * `prev.map(s => s.id === id ? edit(s) : s)`: the collection keeps its length
   * and order; a session changes only if its id is `id`.
   */
  function UpdateWhere(ss: seq<ChatSession>, id: string, e: Edit): (r: seq<ChatSession>)
    ensures |r| == |ss|
    ensures forall i :: 0 <= i < |ss| ==> r[i] == if ss[i].id == id then Apply(e, ss[i]) else ss[i]
  {
    if ss == [] then [] else
      [if ss[0].id == id then Apply(e, ss[0]) else ss[0]] + UpdateWhere(ss[1..], id, e)
  }

  /** The number of sessions whose id is `id`. */
  function CountWithId(ss: seq<ChatSession>, id: string): nat
  {
    if ss == [] then 0 else (if ss[0].id == id then 1 else 0) + CountWithId(ss[1..], id)
  }

  /**
   * `prev.filter(s => s.id !== id)`: exactly the sessions with another id stay,
   * and only those with id `id` go.
   */
  function Without(ss: seq<ChatSession>, id: string): (r: seq<ChatSession>)
    ensures forall s :: s in r <==> s in ss && s.id != id
    ensures |r| + CountWithId(ss, id) == |ss|
  {
    if ss == [] then []
    else if ss[0].id == id then Without(ss[1..], id)
    else [ss[0]] + Without(ss[1..], id)
  }

  /** Filtering keeps the order: it distributes over concatenation. */
  lemma {:induction false} WithoutAppend(a: seq<ChatSession>, b: seq<ChatSession>, id: string)
    ensures Without(a + b, id) == Without(a, id) + Without(b, id)
  {
    if a == [] {
      assert a + b == b;
    } else {
      var c := a + b;
      assert c[0] == a[0];
      assert c[1..] == a[1..] + b;
      WithoutAppend(a[1..], b, id);
      if a[0].id != id {
        calc {
          Without(c, id);
          [a[0]] + Without(a[1..] + b, id);
          [a[0]] + (Without(a[1..], id) + Without(b, id));
          ([a[0]] + Without(a[1..], id)) + Without(b, id);
        }
      }
    }
  }

  /** Deleting an id that no session has changes nothing. */
  lemma {:induction false} WithoutMissing(ss: seq<ChatSession>, id: string)
    requires forall s :: s in ss ==> s.id != id
    ensures Without(ss, id) == ss
  {
    if ss != [] {
      assert ss[0] in ss;
      assert forall s :: s in ss[1..] ==> s in ss;
      WithoutMissing(ss[1..], id);
    }
  }

  /** `sessions.find(s => s.id === id)`: the first session with that id. */
  function Find(ss: seq<ChatSession>, id: string): (r: Option<ChatSession>)
    ensures r.None? <==> forall s :: s in ss ==> s.id != id
    ensures r.Some? ==> exists i :: 0 <= i < |ss| && ss[i] == r.value && r.value.id == id
                                  && forall j :: 0 <= j < i ==> ss[j].id != id
  {
    if ss == [] then None
    else if ss[0].id == id then Some(ss[0])
    else
      var r := Find(ss[1..], id);
      assert forall s :: s in ss[1..] ==> s in ss;
      assert forall s :: s in ss ==> s == ss[0] || s in ss[1..];
      if r.Some? then
        var i :| 0 <= i < |ss[1..]| && ss[1..][i] == r.value && r.value.id == id
                  && forall j :: 0 <= j < i ==> ss[1..][j].id != id;
        assert ss[i + 1] == r.value;
        assert forall j :: 0 <= j < i + 1 ==> ss[j].id != id by {
          forall j | 0 <= j < i + 1 ensures ss[j].id != id {
            if j > 0 { assert ss[j] == ss[1..][j - 1]; }
          }
        }
        r
      else r
  }

  /** `session?.messages || []`: the messages of the first session with that id, or none. */
  function MessagesFor(ss: seq<ChatSession>, id: string): (ms: seq<Message>)
    ensures (forall s :: s in ss ==> s.id != id) ==> ms == []
    ensures (exists s :: s in ss && s.id == id) ==>
      exists i :: 0 <= i < |ss| && ss[i].id == id && ms == ss[i].messages
                  && forall j :: 0 <= j < i ==> ss[j].id != id
  {
    match Find(ss, id)
    case Some(s) => s.messages
    case None => []
  }

  /** `responseText += chunk`, folded over the fragments from the left. */
  function Concat(fragments: seq<string>): string
  {
    if fragments == [] then "" else Concat(fragments[..|fragments| - 1]) + fragments[|fragments| - 1]
  }

  /** The accumulated text of a stream is the concatenation of its pieces, piece by piece. */
  lemma {:induction false} ConcatAppend(a: seq<string>, b: seq<string>)
    ensures Concat(a + b) == Concat(a) + Concat(b)
    decreases |b|
  {
    if b == [] {
      assert a + b == a;
    } else {
      var b' := b[..|b| - 1];
      var c := a + b;
      assert c[..|c| - 1] == a + b';
      assert c[|c| - 1] == b[|b| - 1];
      ConcatAppend(a, b');
      calc {
        Concat(c);
        Concat(a + b') + b[|b| - 1];
        (Concat(a) + Concat(b')) + b[|b| - 1];
        Concat(a) + (Concat(b') + b[|b| - 1]);
      }
    }
  }

  /** The text shown never regresses: each accumulated text is a prefix of every later one. */
  lemma {:induction false} ConcatPrefix(fragments: seq<string>, i: nat, j: nat)
    requires i <= j <= |fragments|
    ensures Concat(fragments[..i]) <= Concat(fragments[..j])
    decreases j - i
  {
    if i < j {
      ConcatPrefix(fragments, i, j - 1);
      assert fragments[..j][..j - 1] == fragments[..j - 1];
    }
  }

  /** The content the reply message is left with: the whole stream, or the failure text alone. */
  function ReplyText(fragments: seq<string>, failed: bool): string
  {
    if failed then FailureText else Concat(fragments)
  }

  /**
   * The collection after a reply stream has been folded into message `botId`
   * of session `target`: untouched when nothing arrived, else overwritten once
   * with the last content shown.
   */
  function Streamed(ss: seq<ChatSession>, target: string, botId: string, fragments: seq<string>, failed: bool): seq<ChatSession>
  {
    if !failed && fragments == [] then ss
    else UpdateWhere(ss, target, SetContent(botId, ReplyText(fragments, failed)))
  }

  /** A later overwrite of the reply's content erases the earlier one entirely. */
  lemma SetContentOverwrites(ss: seq<ChatSession>, target: string, botId: string, x: string, y: string)
    ensures UpdateWhere(UpdateWhere(ss, target, SetContent(botId, x)), target, SetContent(botId, y))
         == UpdateWhere(ss, target, SetContent(botId, y))
  {
    var l := UpdateWhere(UpdateWhere(ss, target, SetContent(botId, x)), target, SetContent(botId, y));
    var r := UpdateWhere(ss, target, SetContent(botId, y));
    forall i | 0 <= i < |ss| ensures l[i] == r[i] {
      if ss[i].id == target {
        var ms := ss[i].messages;
        assert SetContentWhere(SetContentWhere(ms, botId, x), botId, y) == SetContentWhere(ms, botId, y);
      }
    }
  }

  /** One more fragment: the reply shows the text accumulated so far, including it. */
  lemma StreamedStep(ss: seq<ChatSession>, target: string, botId: string, fragments: seq<string>, next: string)
    ensures UpdateWhere(Streamed(ss, target, botId, fragments, false), target, SetContent(botId, Concat(fragments + [next])))
         == Streamed(ss, target, botId, fragments + [next], false)
  {
    assert (fragments + [next])[..|fragments|] == fragments;
    if fragments != [] {
      SetContentOverwrites(ss, target, botId, Concat(fragments), Concat(fragments + [next]));
    }
  }

  /** A failure after the fragments: whatever was shown is replaced by the failure text. */
  lemma StreamedFailure(ss: seq<ChatSession>, target: string, botId: string, fragments: seq<string>)
    ensures UpdateWhere(Streamed(ss, target, botId, fragments, false), target, SetContent(botId, FailureText))
         == Streamed(ss, target, botId, fragments, true)
  {
    if fragments != [] {
      SetContentOverwrites(ss, target, botId, Concat(fragments), FailureText);
    }
  }

  /**
   * Folding a stream changes nothing but the content of messages `botId` in
   * sessions `target`: ids, titles, subjects, times, roles, attachments and
   * the number of messages all stay.
   */
  lemma StreamedFrame(ss: seq<ChatSession>, target: string, botId: string, fragments: seq<string>, failed: bool, i: nat, k: nat)
    requires i < |ss| && k < |ss[i].messages|
    ensures var r := Streamed(ss, target, botId, fragments, failed);
      && |r| == |ss|
      && r[i].(messages := []) == ss[i].(messages := [])
      && |r[i].messages| == |ss[i].messages|
      && r[i].messages[k].(content := "") == ss[i].messages[k].(content := "")
      && (ss[i].id != target || ss[i].messages[k].id != botId ==> r[i].messages[k] == ss[i].messages[k])
  {
  }

  /**
   * The reply message of a target session ends with the content the stream
   * leaves: the concatenation of all fragments, or the failure text alone.
   */
  lemma StreamedReply(ss: seq<ChatSession>, target: string, botId: string, fragments: seq<string>, failed: bool, i: nat, k: nat)
    requires i < |ss| && ss[i].id == target
    requires k < |ss[i].messages| && ss[i].messages[k].id == botId && ss[i].messages[k].content == ""
    ensures var r := Streamed(ss, target, botId, fragments, failed);
      r[i].messages[k] == ss[i].messages[k].(content := ReplyText(fragments, failed))
  {
  }
}
