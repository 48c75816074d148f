/**
 * The data model of the tutor: sessions of messages, messages with an optional
 * media attachment, and the subject tag a session carries (Shuaib/types.ts).
 */
module Types {
  import opened Wrappers

  /** The seven subject tags a session can carry. */
  datatype Subject =
    | GeneralMath
    | HigherMath
    | Physics
    | Chemistry
    | Biology
    | EnglishGrammar
    | General

  /** The tag text the source uses for each subject. */
  function SubjectTag(s: Subject): string
  {
    match s
    case GeneralMath => "General Math"
    case HigherMath => "Higher Math"
    case Physics => "Physics"
    case Chemistry => "Chemistry"
    case Biology => "Biology"
    case EnglishGrammar => "English Grammar"
    case General => "General"
  }

  /** Reads a subject tag back; only the seven tag texts are subjects. */
  function SubjectOfTag(t: string): (r: Option<Subject>)
    ensures r.Some? ==> SubjectTag(r.value) == t
    ensures forall s :: SubjectTag(s) == t ==> r == Some(s)
  {
    if t == "General Math" then Some(GeneralMath)
    else if t == "Higher Math" then Some(HigherMath)
    else if t == "Physics" then Some(Physics)
    else if t == "Chemistry" then Some(Chemistry)
    else if t == "Biology" then Some(Biology)
    else if t == "English Grammar" then Some(EnglishGrammar)
    else if t == "General" then Some(General)
    else None
  }

  /** An attachment is either a picture or a voice recording. */
  datatype AttachmentKind = Image | Audio

  function KindTag(k: AttachmentKind): string
  {
    match k
    case Image => "image"
    case Audio => "audio"
  }

  function KindOfTag(t: string): (r: Option<AttachmentKind>)
    ensures r.Some? <==> (t == "image" || t == "audio")
    ensures r.Some? ==> KindTag(r.value) == t
  {
    if t == "image" then Some(Image) else if t == "audio" then Some(Audio) else None
  }

  /**
   * A captured medium: its payload as base64 text, its MIME type, and a
   * reference the page can display it from. All four fields are always there.
   */
  datatype Attachment = Attachment(kind: AttachmentKind, data: string, mimeType: string, url: string)

  /** Who wrote a message: the learner or the model. */
  datatype Role = User | Model

  function RoleTag(r: Role): string
  {
    match r
    case User => "user"
    case Model => "model"
  }

  function RoleOfTag(t: string): (r: Option<Role>)
    ensures r.Some? <==> (t == "user" || t == "model")
    ensures r.Some? ==> RoleTag(r.value) == t
  {
    if t == "user" then Some(User) else if t == "model" then Some(Model) else None
  }

  /** An instant, as the milliseconds since the epoch that `Date.now()` reports. */
  type Instant = nat

  /** One message; only the attachment is optional. */
  datatype Message = Message(id: string, role: Role, content: string, attachment: Option<Attachment>, timestamp: Instant)

  /** A named conversation: its messages in the order they were written. */
  datatype ChatSession = ChatSession(id: string, title: string, subject: Subject, messages: seq<Message>, lastModified: Instant)
}
