/** `send_email`: the MIME tree the handler composes and the envelope it
    hands to the SMTP connection. A `multipart/mixed` root holds a
    `multipart/alternative` part with the plain-text body and, when an
    attachment path is given, a `text/calendar` part carrying the file. */
module Outbox {
  import opened Wrappers
  import opened Mime
  import Handler
  import Inbox

  /** What `smtp_conn.sendmail(from, to, msg)` is handed. */
  datatype Outgoing = Outgoing(sender: string, recipients: seq<string>, message: Part)

  // --------------------------------------------------------------- paths

  /** `str.rfind`: the index of the last occurrence of `c`, or -1. */
  function RFind(s: string, c: char): (i: int)
    ensures -1 <= i < |s|
    ensures i >= 0 ==> s[i] == c
    ensures forall j :: i < j < |s| ==> s[j] != c
  {
    if s == [] then -1
    else if s[|s| - 1] == c then |s| - 1
    else
      var i := RFind(s[..|s| - 1], c);
      assert forall j :: 0 <= j < |s| - 1 ==> s[..|s| - 1][j] == s[j];
      i
  }

  /** `os.path.basename`: the text after the last `/` of the path. */
  function Basename(path: string): string
  {
    path[RFind(path, '/') + 1..]
  }

  /** The base name is the tail of the path that holds no `/`: either the
      whole path, or what follows a `/`. */
  lemma BasenameIsLastSegment(path: string)
    ensures '/' !in Basename(path)
    ensures |Basename(path)| <= |path| && path[|path| - |Basename(path)|..] == Basename(path)
    ensures |Basename(path)| < |path| ==> path[|path| - |Basename(path)| - 1] == '/'
  {
    var i := RFind(path, '/');
    var r := path[i + 1..];
    assert |path| - |r| == i + 1;
    forall j | 0 <= j < |r|
      ensures r[j] != '/'
    {
      assert r[j] == path[i + 1 + j];
    }
  }

  /** A path without `/` is its own base name. */
  lemma BasenameOfPlainName(name: string)
    requires '/' !in name
    ensures Basename(name) == name
  {
    assert forall k :: 0 <= k < |name| ==> name[k] != '/';
  }

  // ---------------------------------------------------------------- parts

  const Disposition := "Content-Disposition"
  const DispositionPrefix := "attachment; filename="
  const ContentClassName := "Content-class"
  const ContentClass := "urn:content-classes:calendarmessage"

  /** The charset `MIMEText` picks: `us-ascii` when every character fits in
      seven bits, otherwise `utf-8`. */
  function Charset(text: string): string
  {
    if forall i :: 0 <= i < |text| ==> text[i] as int < 128 then "us-ascii" else "utf-8"
  }

  function Multipart(subtype: string): Part
  {
    Part("multipart/" + subtype, [], [], Parts([]))
  }

  /** `MIMEText(body, "plain")` */
  function PlainText(body: string): Part
  {
    Part("text/plain", [Param("charset", Charset(body))], [], Text(body))
  }

  /** The calendar part: `MIMEBase("text", "calendar", method="REQUEST",
      name=...)` with the file's bytes as payload and the two headers added. */
  function CalendarAttachment(path: string, content: seq<byte>): Part
  {
    var name := Basename(path);
    var p := Part(Calendar, [Param("method", "REQUEST"), Param("name", name)], [], Bytes(content));
    var p := AddHeader(p, Disposition, DispositionPrefix + name);
    AddHeader(p, ContentClassName, ContentClass)
  }

  /** The message `send_email` builds. The file system is the function
      `readFile`, consulted only when the path is truthy. */
  function ComposeMessage(h: Handler.MailHandler, to: string, subject: string, body: string,
                          attachmentPath: Option<string>, readFile: string -> seq<byte>): Part
  {
    var msg := Multipart("mixed");
    var msg := AddHeader(msg, "From", h.userEmail);
    var msg := AddHeader(msg, "To", to);
    var msg := AddHeader(msg, "Subject", subject);
    var alt := Attach(Multipart("alternative"), PlainText(body));
    var msg := Attach(msg, alt);
    if Handler.Truthy(attachmentPath) then
      Attach(msg, CalendarAttachment(attachmentPath.value, readFile(attachmentPath.value)))
    else msg
  }

  /** `send_email`: the message goes from the handler's address to the one
      recipient, and the envelope agrees with the message's own `From` and
      `To` fields. */
  function SendEmail(h: Handler.MailHandler, to: string, subject: string, body: string,
                     attachmentPath: Option<string>, readFile: string -> seq<byte>): (o: Outgoing)
    ensures o.sender == h.userEmail && o.recipients == [to]
    ensures o.message == ComposeMessage(h, to, subject, body, attachmentPath, readFile)
    ensures |o.recipients| == 1
    ensures GetHeader(o.message.headers, "From") == Some(o.sender)
    ensures GetHeader(o.message.headers, "To") == Some(o.recipients[0])
    ensures GetHeader(o.message.headers, "Subject") == Some(subject)
  {
    HeadersReadBack(h, to, subject, body, attachmentPath, readFile);
    Outgoing(h.userEmail, [to], ComposeMessage(h, to, subject, body, attachmentPath, readFile))
  }

  // ----------------------------------------------------------- properties

  /** The root is `multipart/mixed`; its first child is the alternative part
      holding only the body as plain text; a second child is there exactly
      when the attachment path is truthy. */
  lemma MessageShape(h: Handler.MailHandler, to: string, subject: string, body: string,
                     attachmentPath: Option<string>, readFile: string -> seq<byte>)
    ensures var m := ComposeMessage(h, to, subject, body, attachmentPath, readFile);
      && m.contentType == "multipart/" + "mixed"
      && m.payload.Parts?
      && |Children(m)| == (if Handler.Truthy(attachmentPath) then 2 else 1)
      && Children(m)[0].contentType == "multipart/" + "alternative"
      && Children(Children(m)[0]) == [PlainText(body)]
      && PlainText(body).payload == Text(body)
  {
  }

  /** The body part: `text/plain` with no fields of its own, the body as
      text, and the charset `us-ascii` exactly when every character fits in
      seven bits, `utf-8` otherwise. */
  lemma PlainTextShape(body: string)
    ensures PlainText(body).contentType == "text/plain" && PlainText(body).headers == []
    ensures PlainText(body).payload == Text(body)
    ensures (forall i :: 0 <= i < |body| ==> body[i] as int < 128)
            ==> PlainText(body).params == [Param("charset", "us-ascii")]
    ensures (exists i :: 0 <= i < |body| && body[i] as int >= 128)
            ==> PlainText(body).params == [Param("charset", "utf-8")]
  {
  }

  /** The calendar part: type `text/calendar`, parameters `method=REQUEST`
      and the base name, and the file's bytes as payload. */
  lemma CalendarPartShape(path: string, content: seq<byte>)
    ensures CalendarAttachment(path, content).contentType == Calendar
    ensures CalendarAttachment(path, content).params == [Param("method", "REQUEST"), Param("name", Basename(path))]
    ensures CalendarAttachment(path, content).payload == Bytes(content)
  {
  }

  /** The calendar part's fields: the disposition naming the file by its
      base name, then the content class of a calendar message. */
  lemma CalendarPartHeaders(path: string, content: seq<byte>)
    ensures CalendarAttachment(path, content).headers
            == [Header(Disposition, DispositionPrefix + Basename(path)), Header(ContentClassName, ContentClass)]
  {
  }

  /** With a truthy path the second child is the calendar part built from
      the path's base name and the file's bytes. */
  lemma AttachmentShape(h: Handler.MailHandler, to: string, subject: string, body: string,
                        path: string, readFile: string -> seq<byte>)
    requires path != ""
    ensures var m := ComposeMessage(h, to, subject, body, Some(path), readFile);
      |Children(m)| == 2 && Children(m)[1] == CalendarAttachment(path, readFile(path))
  {
    RootChildren(h, to, subject, body, Some(path), readFile);
  }

  /** The root's fields: the `From`, `To` and `Subject` headers in that order. */
  lemma RootHeaders(h: Handler.MailHandler, to: string, subject: string, body: string,
                    attachmentPath: Option<string>, readFile: string -> seq<byte>)
    ensures ComposeMessage(h, to, subject, body, attachmentPath, readFile).headers
            == [Header("From", h.userEmail), Header("To", to), Header("Subject", subject)]
  {
  }

  /** The three addressing headers read back as given. */
  lemma HeadersReadBack(h: Handler.MailHandler, to: string, subject: string, body: string,
                        attachmentPath: Option<string>, readFile: string -> seq<byte>)
    ensures var m := ComposeMessage(h, to, subject, body, attachmentPath, readFile);
      && GetHeader(m.headers, "From") == Some(h.userEmail)
      && GetHeader(m.headers, "To") == Some(to)
      && GetHeader(m.headers, "Subject") == Some(subject)
  {
    var hs := ComposeMessage(h, to, subject, body, attachmentPath, readFile).headers;
    RootHeaders(h, to, subject, body, attachmentPath, readFile);
    GetHeaderSkip(hs, "To");
    GetHeaderSkip(hs, "Subject");
    GetHeaderSkip(hs[1..], "Subject");
    assert hs[1..][1..] == [Header("Subject", subject)];
  }

  /** The root's children: the alternative part, then the calendar part when
      the path is truthy. */
  lemma RootChildren(h: Handler.MailHandler, to: string, subject: string, body: string,
                     attachmentPath: Option<string>, readFile: string -> seq<byte>)
    ensures Children(ComposeMessage(h, to, subject, body, attachmentPath, readFile))
            == [Attach(Multipart("alternative"), PlainText(body))]
               + (if Handler.Truthy(attachmentPath)
                  then [CalendarAttachment(attachmentPath.value, readFile(attachmentPath.value))] else [])
  {
  }

  /** The alternative part holds no calendar part. */
  lemma AlternativeHasNoCalendar(body: string)
    ensures !Contains(Attach(Multipart("alternative"), PlainText(body)), Calendar)
  {
    var alt := Attach(Multipart("alternative"), PlainText(body));
    assert Children(alt) == [PlainText(body)];
    assert !Contains(PlainText(body), Calendar);
    assert Children(alt)[1..] == [];
    assert !ContainsAny(Children(alt), Calendar);
  }

  /** A multipart whose first child holds no part of type `t` contains one
      exactly when its later children do. */
  lemma ContainsPastFirst(m: Part, first: Part, rest: seq<Part>, t: string)
    requires m.payload == Parts([first] + rest) && m.contentType != t && !Contains(first, t)
    ensures Contains(m, t) <==> ContainsAny(rest, t)
  {
    assert ([first] + rest)[1..] == rest;
  }

  /** The composed message counts as a calendar response for the inbox scan
      exactly when it was sent with an attachment. */
  lemma ScanRecognisesInvitation(h: Handler.MailHandler, to: string, subject: string, body: string,
                                 attachmentPath: Option<string>, readFile: string -> seq<byte>)
    ensures Inbox.IsCalendarResponse(ComposeMessage(h, to, subject, body, attachmentPath, readFile))
            <==> Handler.Truthy(attachmentPath)
  {
    var m := ComposeMessage(h, to, subject, body, attachmentPath, readFile);
    MessageShape(h, to, subject, body, attachmentPath, readFile);
    RootChildren(h, to, subject, body, attachmentPath, readFile);
    Inbox.CalendarResponseIffContains(m);
    AlternativeHasNoCalendar(body);
    var rest := Children(m)[1..];
    ContainsPastFirst(m, Children(m)[0], rest, Calendar);
    if Handler.Truthy(attachmentPath) {
      CalendarPartShape(attachmentPath.value, readFile(attachmentPath.value));
      assert rest == [CalendarAttachment(attachmentPath.value, readFile(attachmentPath.value))];
    } else {
      assert rest == [];
    }
  }

  /** The inbox scan reports the subject the message was sent with. */
  lemma ScanReportsSubject(h: Handler.MailHandler, to: string, subject: string, body: string,
                           attachmentPath: Option<string>, readFile: string -> seq<byte>)
    ensures Inbox.SubjectOf(ComposeMessage(h, to, subject, body, attachmentPath, readFile)) == Some(subject)
  {
    HeadersReadBack(h, to, subject, body, attachmentPath, readFile);
  }
}
