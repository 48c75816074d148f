/**
 * Keeping the session collection in the browser's local store across reloads
 * (Shuaib/App.tsx, the two persistence effects). The stored text is modelled
 * by the JSON value it parses to; `JSON.stringify` and `JSON.parse` between
 * that value and its text are not part of this model.
 */
module Persistence {
  import opened Wrappers
  import opened Types
  import JsText

  /** The single local-store key the collection lives under. */
  const StorageKey: string := "shuaib_v2_sessions"

  datatype Json =
    | JNull
    | JBool(b: bool)
    | JNumber(n: int)
    | JString(s: string)
    | JArray(items: seq<Json>)
    | JObject(fields: map<string, Json>)

  /** What the storage key holds: nothing, text that parses as JSON, or text that does not. */
  datatype Stored = Absent | Parsed(value: Json) | Unparseable

  /** A `Date` as `JSON.stringify` writes it; here the decimal milliseconds. */
  function DateJson(t: Instant): Json
  {
    JString(JsText.NatToString(t))
  }

  function AttachmentJson(a: Attachment): Json
  {
    JObject(map["type" := JString(KindTag(a.kind)), "data" := JString(a.data),
                "mimeType" := JString(a.mimeType), "url" := JString(a.url)])
  }

  /** A message; an absent attachment is `undefined` and is left out of the object. */
  function MessageJson(m: Message): Json
  {
    var fields := map["id" := JString(m.id), "role" := JString(RoleTag(m.role)),
                      "content" := JString(m.content), "timestamp" := DateJson(m.timestamp)];
    JObject(if m.attachment.Some? then fields["attachment" := AttachmentJson(m.attachment.value)] else fields)
  }

  function MessagesJson(ms: seq<Message>): (r: seq<Json>)
    ensures |r| == |ms|
    ensures forall i :: 0 <= i < |ms| ==> r[i] == MessageJson(ms[i])
  {
    if ms == [] then [] else [MessageJson(ms[0])] + MessagesJson(ms[1..])
  }

  function SessionJson(s: ChatSession): Json
  {
    JObject(map["id" := JString(s.id), "title" := JString(s.title), "subject" := JString(SubjectTag(s.subject)),
                "messages" := JArray(MessagesJson(s.messages)), "lastModified" := DateJson(s.lastModified)])
  }

  function SessionsJson(ss: seq<ChatSession>): (r: seq<Json>)
    ensures |r| == |ss|
    ensures forall i :: 0 <= i < |ss| ==> r[i] == SessionJson(ss[i])
  {
    if ss == [] then [] else [SessionJson(ss[0])] + SessionsJson(ss[1..])
  }

  /** `JSON.stringify(sessions)`, as a JSON value. */
  function Serialize(ss: seq<ChatSession>): Json
  {
    JArray(SessionsJson(ss))
  }

  function StringField(o: map<string, Json>, k: string): Option<string>
  {
    if k in o && o[k].JString? then Some(o[k].s) else None
  }

  /** `new Date(text)` on a date the store wrote. */
  function DateField(o: map<string, Json>, k: string): Option<Instant>
  {
    match StringField(o, k)
    case None => None
    case Some(text) => JsText.ParseNat(text)
  }

  function AttachmentOf(j: Json): Option<Attachment>
  {
    if !j.JObject? then None else
    var o := j.fields;
    match (StringField(o, "type"), StringField(o, "data"), StringField(o, "mimeType"), StringField(o, "url"))
    case (Some(t), Some(data), Some(mime), Some(url)) =>
      (match KindOfTag(t) case Some(kind) => Some(Attachment(kind, data, mime, url)) case None => None)
    case _ => None
  }

  /** One message, with `timestamp` rebuilt from its text. */
  function MessageOf(j: Json): Option<Message>
  {
    if !j.JObject? then None else
    var o := j.fields;
    var attachment :=
      if "attachment" !in o || o["attachment"] == JNull then Some(None)
      else match AttachmentOf(o["attachment"]) case Some(a) => Some(Some(a)) case None => None;
    match (StringField(o, "id"), StringField(o, "role"), StringField(o, "content"), DateField(o, "timestamp"), attachment)
    case (Some(id), Some(role), Some(content), Some(t), Some(att)) =>
      (match RoleOfTag(role) case Some(r) => Some(Message(id, r, content, att, t)) case None => None)
    case _ => None
  }

  /** Every stored message read back, or None as soon as one item is malformed. */
  function MessagesOf(items: seq<Json>): (r: Option<seq<Message>>)
    ensures r.None? <==> exists i :: 0 <= i < |items| && MessageOf(items[i]).None?
    ensures r.Some? ==> |r.value| == |items| && forall i :: 0 <= i < |items| ==> MessageOf(items[i]) == Some(r.value[i])
  {
    if items == [] then Some([])
    else match (MessageOf(items[0]), MessagesOf(items[1..]))
      case (Some(m), Some(ms)) => Some([m] + ms)
      case _ => None
  }

  /** One session, with `lastModified` rebuilt from its text. */
  function SessionOf(j: Json): Option<ChatSession>
  {
    if !j.JObject? then None else
    var o := j.fields;
    var messages := if "messages" in o && o["messages"].JArray? then MessagesOf(o["messages"].items) else None;
    match (StringField(o, "id"), StringField(o, "title"), StringField(o, "subject"), messages, DateField(o, "lastModified"))
    case (Some(id), Some(title), Some(tag), Some(ms), Some(t)) =>
      (match SubjectOfTag(tag) case Some(subject) => Some(ChatSession(id, title, subject, ms, t)) case None => None)
    case _ => None
  }

  /** Every stored session read back, or None as soon as one item is malformed. */
  function SessionsOf(items: seq<Json>): (r: Option<seq<ChatSession>>)
    ensures r.None? <==> exists i :: 0 <= i < |items| && SessionOf(items[i]).None?
    ensures r.Some? ==> |r.value| == |items| && forall i :: 0 <= i < |items| ==> SessionOf(items[i]) == Some(r.value[i])
  {
    if items == [] then Some([])
    else match (SessionOf(items[0]), SessionsOf(items[1..]))
      case (Some(s), Some(ss)) => Some([s] + ss)
      case _ => None
  }

  /** The hydration of a parsed value: None where the source's hydration throws. */
  function Hydrate(j: Json): Option<seq<ChatSession>>
  {
    if j.JArray? then SessionsOf(j.items) else None
  }

  /**
   * The save effect: write the collection under `StorageKey` when it has
   * sessions, remove that key when it has none. The store is modelled as the
   * one slot this key names.
   */
  function Save(ss: seq<ChatSession>): (stored: Stored)
    ensures stored == Absent <==> ss == []
    ensures ss != [] ==> stored == Parsed(Serialize(ss))
  {
    if |ss| > 0 then Parsed(Serialize(ss)) else Absent
  }

  /**
   * The load effect: the hydrated collection read from `StorageKey`, or no
   * sessions at all when the key is missing, its text is not JSON, or its
   * value is malformed.
   */
  function Load(stored: Stored): (ss: seq<ChatSession>)
    ensures stored.Absent? || stored.Unparseable? ==> ss == []
    ensures stored.Parsed? && Hydrate(stored.value).None? ==> ss == []
    ensures stored.Parsed? && Hydrate(stored.value).Some? ==> ss == Hydrate(stored.value).value
  {
    match stored
    case Parsed(j) => (match Hydrate(j) case Some(ss) => ss case None => [])
    case _ => []
  }

  lemma DateRoundTrip(o: map<string, Json>, k: string, t: Instant)
    requires k in o && o[k] == DateJson(t)
    ensures DateField(o, k) == Some(t)
  {
    JsText.ParseNatToString(t);
  }

  lemma AttachmentRoundTrip(a: Attachment)
    ensures AttachmentOf(AttachmentJson(a)) == Some(a)
  {
    var o := AttachmentJson(a).fields;
    assert StringField(o, "type") == Some(KindTag(a.kind));
    assert KindOfTag(KindTag(a.kind)) == Some(a.kind) by { if a.kind == Image { } }
  }

  lemma MessageRoundTrip(m: Message)
    ensures MessageOf(MessageJson(m)) == Some(m)
  {
    var o := MessageJson(m).fields;
    DateRoundTrip(o, "timestamp", m.timestamp);
    assert RoleOfTag(RoleTag(m.role)) == Some(m.role) by { if m.role == User { } }
    if m.attachment.Some? {
      AttachmentRoundTrip(m.attachment.value);
      assert o["attachment"] == AttachmentJson(m.attachment.value);
    } else {
      assert "attachment" !in o;
    }
    assert StringField(o, "id") == Some(m.id);
    assert StringField(o, "role") == Some(RoleTag(m.role));
    assert StringField(o, "content") == Some(m.content);
  }

  lemma {:induction false} MessagesRoundTrip(ms: seq<Message>)
    ensures MessagesOf(MessagesJson(ms)) == Some(ms)
  {
    if ms != [] {
      MessageRoundTrip(ms[0]);
      MessagesRoundTrip(ms[1..]);
      assert MessagesJson(ms)[1..] == MessagesJson(ms[1..]);
      assert [ms[0]] + ms[1..] == ms;
    }
  }

  lemma SessionRoundTrip(s: ChatSession)
    ensures SessionOf(SessionJson(s)) == Some(s)
  {
    var o := SessionJson(s).fields;
    MessagesRoundTrip(s.messages);
    DateRoundTrip(o, "lastModified", s.lastModified);
    assert SubjectOfTag(SubjectTag(s.subject)) == Some(s.subject);
    assert StringField(o, "id") == Some(s.id);
    assert StringField(o, "title") == Some(s.title);
    assert StringField(o, "subject") == Some(SubjectTag(s.subject));
    assert o["messages"] == JArray(MessagesJson(s.messages));
  }

  lemma {:induction false} SessionsRoundTrip(ss: seq<ChatSession>)
    ensures SessionsOf(SessionsJson(ss)) == Some(ss)
  {
    if ss != [] {
      SessionRoundTrip(ss[0]);
      SessionsRoundTrip(ss[1..]);
      assert SessionsJson(ss)[1..] == SessionsJson(ss[1..]);
      assert [ss[0]] + ss[1..] == ss;
    }
  }

  /** What is saved is what is loaded back: the collection survives a reload unchanged. */
  lemma LoadSave(ss: seq<ChatSession>)
    ensures Load(Save(ss)) == ss
  {
    if ss != [] {
      SessionsRoundTrip(ss);
    }
  }
}
