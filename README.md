# MailHandler: a Dafny model

This project models the core of `MailHandler.py` from the ICSProject, a small utility for mail and calendar invitations. The core has four parts.

- **Creating a handler.** The handler is created from the `EMAIL` and `PASSWORD` environment variables. It refuses to exist when either one is unset or empty (module `Handler`).
- **Scanning the inbox.** `fetch_calendar_responses` searches the inbox and fetches every message. It keeps the `Subject` of each message that is, or carries, a `text/calendar` part. A failed search or a failed fetch raises (module `Inbox`). This part is imperative: the scan is a `method` with a loop, proved against the specification function `ScanResult`. The per-message test is a second method, a `walk()` loop with an early exit, proved against `IsCalendarResponse`.
- **Creating the invitation file.** `create_ics_file` renders a sixteen-line iCalendar text with one event (module `Invite`). It then derives the file name from the event name. The model has the template, a reader for the text it produces, and the proof that the reader returns every field unchanged.
- **Composing the mail.** `send_email` builds a MIME tree (module `Outbox`, over the part tree of module `Mime`). The root is `multipart/mixed`. It holds a `multipart/alternative` part with the plain-text body. When the attachment path is truthy, the root also holds a `text/calendar` part with `method=REQUEST`, the file's bytes, and the `Content-Disposition` and `Content-class` headers. The message goes from the handler's address to one recipient.

Module `DateTimes` models the part of Python's `datetime` that `strftime('%Y%m%dT%H%M%S')` reads, and that rendering. It proves that distinct date-times render to distinct stamps.

The model takes these as parameters instead of reading them itself:

- **The environment.** `Handler.New` receives the two values, with `None` for an unset variable.
- **The IMAP server.** `Inbox.Mailbox` holds the search status, the ids it returns, and the reply to a fetch of each id. The reply's message is the already-parsed part tree.
- **The clock.** The invitation carries two separate readings of `datetime.now()`: one for `UID` and one for `DTSTAMP`.
- **The file system.** Each file read is the `readFile` function.

The model follows the code as written, including these details:

- **Line endings.** The calendar lines are joined with a bare line feed, not the CRLF that section 3.1 of RFC 5545 requires.
- **`DTSTAMP` ends in a literal `Z`.** The code writes `Z` after a local-time reading, so the stamp has a UTC marker it has not earned. `UID`, `DTSTART` and `DTEND` have no zone suffix.
- **The no-attachment message has three levels, not two.** They are the `multipart/mixed` root, the `multipart/alternative` part and the `text/plain` part. `Outbox.MessageShape` states this.
- **The `UID` depends only on the wall clock at second precision.** Two invitations made in the same second therefore share it. The model keeps this, and `Invite.OnlyClockLinesVary` shows that this reading and `DTSTAMP` are the only clock inputs.

## Model

| member | source | states |
|---|---|---|
| Handler.New | MailHandler.py:16-28 | A handler exists exactly when both environment values are set and non-empty; it carries them unchanged; otherwise the error `CredentialsNotSet` |
| Mime.GetHeader | MailHandler.py:85 | `msg["Subject"]`: None exactly when no field has the name (case-insensitively); otherwise the value of the first such field |
| Mime.AddHeader | MailHandler.py:180-182 | The field is appended after the existing ones; type, parameters and payload are unchanged |
| Mime.Attach | MailHandler.py:185-188 | The part is appended as the container's last child; the earlier children and the container's fields are unchanged |
| Mime.Walk | MailHandler.py:87 | `walk()` yields the part itself first |
| Mime.WalkFindsType | MailHandler.py:87-88 | `walk()` meets a part of a given type exactly when the tree holds one |
| DateTimes.Digits | MailHandler.py:144-147 | Each `strftime` field is exactly the requested number of decimal digits |
| DateTimes.Stamp | MailHandler.py:144-147 | The rendering is 15 characters: 8 digits, `T`, 6 digits |
| DateTimes.NumberOfDigits | MailHandler.py:144-147 | A number below 10^w read back from its w-digit rendering is itself |
| DateTimes.DigitsOfNumber | MailHandler.py:144-147 | A digit string re-rendered at its own width is itself |
| DateTimes.StampRoundTrip | MailHandler.py:144-147 | Every valid date-time is read back from its stamp as itself |
| DateTimes.ParseStampSound | MailHandler.py:144-147 | Whatever the reader accepts renders back as the text it read |
| DateTimes.StampInjective | MailHandler.py:144-147 | Distinct date-times have distinct stamps |
| Invite.Lines | MailHandler.py:139-154 | The template has sixteen lines |
| Invite.Content | MailHandler.py:139-154 | The text of `ics_content`: the template lines joined by line feeds; `Invite.ContentBlocks` and `Invite.ParseContent` state what it holds |
| Invite.ContentBlocks | MailHandler.py:139-154 | The text is the opening block, the clock lines, the field lines and the closing lines, joined by line feeds |
| Invite.LineInitials | MailHandler.py:139-154 | The first character of each of the sixteen template lines, and the two closing lines exactly: enough to tell the lines that open and close a block from all others |
| Invite.LinePrefixes | MailHandler.py:139-154 | The template's line order: the five opening and two closing lines exactly, and for each of the nine others the property name and parameters it begins with (`UID:`, `DTSTAMP:`, `DTSTART:`, `DTEND:`, `SUMMARY:`, `DESCRIPTION:`, `LOCATION:`, the organizer and the attendee prefixes) |
| Invite.OneCalendarBlock | MailHandler.py:139-154 | Among the sixteen template lines, only the first opens the calendar and only the last closes it |
| Invite.OneEventBlock | MailHandler.py:143-153 | Among the sixteen template lines, only the fifth opens the event and only the fifteenth closes it: the template holds exactly one event |
| Invite.ParseContent | MailHandler.py:139-154 | When no free-text input holds a line feed, reading the text back gives the organizer, the event and both clock readings unchanged |
| Invite.ContentInjective | MailHandler.py:139-154 | Under the same condition, distinct invitations give distinct texts |
| Invite.OnlyClockLinesVary | MailHandler.py:144-145 | Changing the two `now()` readings changes only the `UID` and `DTSTAMP` lines |
| Invite.ReplaceChar | MailHandler.py:156 | `replace(' ', '_')` keeps the length and replaces exactly the spaces, character by character |
| Invite.Filename | MailHandler.py:156 | The name has four more characters than the event name, ends in `.ics` and holds no space; each space of the event name becomes `_` and every other character stays in place |
| Invite.ReplaceAfterWord | MailHandler.py:156 | A space after a word without spaces becomes `_`, and the rest of the name is replaced on its own |
| Invite.ReplaceCharAbsent | MailHandler.py:156 | A name without spaces is unchanged |
| Invite.FilenameOfTestEvent | test_mail_handler.py:68-70 | `Test Event` gives `Test_Event.ics` |
| Invite.FilenameOfMeetingWithTeam | MailHandler.py:156 | `Meeting with Team` gives `Meeting_with_Team.ics` |
| Invite.CreateIcsFile | MailHandler.py:117-160 | The file name returned and the text written, with the handler's address as organizer; `Invite.IcsFileReadsBack` states both |
| Invite.IcsFileReadsBack | MailHandler.py:117-160 | The written file reads back with the handler's address as organizer and the event and clock readings unchanged; its name is the event name with `_` for spaces plus `.ics` |
| Inbox.SubjectOf | MailHandler.py:85-89 | `email_msg["Subject"]`: the first `Subject` field of the message, or None; `Inbox.SubjectsArePicked` states that the scan reports it per qualifying message and `Outbox.ScanReportsSubject` that it is the subject a composed message was sent with |
| Inbox.IsCalendarResponse | MailHandler.py:84-90 | The test each message goes through; `Inbox.CalendarResponseIffContains` states that it holds exactly when the tree contains a `text/calendar` part |
| Inbox.Subjects | MailHandler.py:76-90 | The subjects collected from a run of ids, in order; `Inbox.SubjectsArePicked`, `Inbox.SubjectsBound` and `Inbox.SubjectsAppend` state what it holds |
| Inbox.ScanResult | MailHandler.py:70-92 | The outcome the scan owes: `SearchFailed` for a failed search, `FetchFailed` for any failed fetch, otherwise the collected subjects; `Inbox.FetchCalendarResponses` is proved equal to it |
| Inbox.CheckMessage | MailHandler.py:84-90 | The loop over `walk()` reports a hit exactly when the message's own type, or that of some part it walks, is `text/calendar` |
| Inbox.FetchCalendarResponses | MailHandler.py:69-92 | The result is `ScanResult`: a failure exactly when the search or some fetch is not `OK`; otherwise the subjects of the qualifying messages, in order |
| Inbox.CalendarResponseIffContains | MailHandler.py:84-90 | The separate test of the message's own type changes nothing: a message qualifies exactly when its tree holds a `text/calendar` part |
| Inbox.ContributionAtMostOne | MailHandler.py:84-90 | A message adds at most one subject, and exactly one when it qualifies (the `break`) |
| Inbox.SubjectsBound | MailHandler.py:76-92 | There are no more subjects than message ids |
| Inbox.SubjectsAppend | MailHandler.py:77-90 | Scanning two runs of ids one after the other gives the two lists concatenated |
| Inbox.PickedPositions | MailHandler.py:77-90 | The picked positions are in range and strictly increasing; a position is picked exactly when its message qualifies |
| Inbox.SubjectsArePicked | MailHandler.py:77-92 | The k-th subject is that of the k-th qualifying message, and there is one subject per qualifying message |
| Inbox.NoCalendarNoSubjects | MailHandler.py:76-92 | A mailbox with no qualifying message gives an empty list |
| Outbox.RFind | MailHandler.py:195 | The index of the last `/`, or -1 when there is none |
| Outbox.Basename | MailHandler.py:195-202 | `os.path.basename` as on POSIX: the text after the last `/`; `Outbox.BasenameIsLastSegment` states it |
| Outbox.BasenameIsLastSegment | MailHandler.py:195-202 | `basename` holds no `/` and is a suffix of the path; it is either the whole path or preceded by `/` |
| Outbox.BasenameOfPlainName | MailHandler.py:195-202 | A path without `/` is its own base name |
| Outbox.Multipart | MailHandler.py:179-184 | `MIMEMultipart(subtype)`: an empty `multipart/<subtype>` container with no parameters and no fields; `Outbox.MessageShape` and `Outbox.RootHeaders` state what the two containers hold once filled |
| Outbox.Charset | MailHandler.py:187 | The charset `MIMEText` picks for the body; `Outbox.PlainTextShape` states it |
| Outbox.PlainText | MailHandler.py:187 | `MIMEText(body, "plain")`; `Outbox.PlainTextShape` states its type, fields, charset and payload |
| Outbox.PlainTextShape | MailHandler.py:187 | The body part is `text/plain` with the body as text and no fields in the model (the `Content-Transfer-Encoding` field `MIMEText` sets is left out); its charset is `us-ascii` when every character is below 128 and `utf-8` otherwise |
| Outbox.CalendarAttachment | MailHandler.py:191-206 | The calendar part; `Outbox.CalendarPartShape` and `Outbox.CalendarPartHeaders` state its type, parameters, payload and fields |
| Outbox.ComposeMessage | MailHandler.py:179-207 | The message `send_email` builds; `Outbox.MessageShape`, `Outbox.RootHeaders`, `Outbox.RootChildren` and `Outbox.AttachmentShape` state its shape |
| Outbox.SendEmail | MailHandler.py:179-210 | The envelope has exactly one recipient, and it agrees with the message it carries: the message's `From` field reads back as the envelope's sender and its `To` field as the one recipient; the `Subject` field reads back as the given subject |
| Outbox.MessageShape | MailHandler.py:179-190 | The root is `multipart/mixed`; its first child is `multipart/alternative` holding only the plain-text body; it has a second child exactly when the path is truthy |
| Outbox.RootHeaders | MailHandler.py:180-182 | The root's fields are `From`, `To`, `Subject`, in that order, with the given values |
| Outbox.HeadersReadBack | MailHandler.py:180-182 | Looking up `From`, `To` and `Subject` gives back the handler's address, the recipient and the subject |
| Outbox.RootChildren | MailHandler.py:184-207 | The root's children are the alternative part, then the calendar part when the path is truthy |
| Outbox.CalendarPartShape | MailHandler.py:191-198 | The attachment has type `text/calendar`, the parameters `method=REQUEST` and `name=<basename>`, and the file's bytes as payload |
| Outbox.CalendarPartHeaders | MailHandler.py:200-206 | The attachment's fields are the disposition naming the base name, then the calendar content class |
| Outbox.AttachmentShape | MailHandler.py:190-207 | With a non-empty path, the second child is the calendar part built from the path and the bytes read from it |
| Outbox.AlternativeHasNoCalendar | MailHandler.py:184-188 | The alternative part holds no calendar part |
| Outbox.ContainsPastFirst | MailHandler.py:184-207 | When a multipart's first child holds no part of a type, the multipart holds one exactly when its later children do |
| Outbox.ScanRecognisesInvitation | MailHandler.py:190-207 | A composed message passes the inbox's calendar test exactly when it was sent with a truthy attachment path |
| Outbox.ScanReportsSubject | MailHandler.py:179-182 | The inbox scan reports a composed message's subject as the one it was sent with |

## Left out

- Connecting and logging in to IMAP and SMTP (`connect_to_outlook_imap`, `connect_to_outlook_smtp`) are left out. They are network I/O with no logic of their own beyond raising the library's error.
- `imap_conn.select("inbox")` is not modelled as a step of its own. The code does not check its reply. After a failed select the connection stays unselected, and the `search` that follows then raises because SEARCH is not allowed in that state. The model folds this into `searchStatus != OK`.
- Status `BAD` never reaches the code's own `result != "OK"` tests, because `imaplib` raises its own error for it first. `ScanError` does not tell the two apart: `SearchFailed` and `FetchFailed` stand both for the code's `Exception` and for `imaplib`'s error.
- `data[0].split()` is left out. The mailbox gives the ids already split.
- `message_from_bytes` is left out. A fetch reply carries the parsed part tree, and `contentType` holds what `get_content_type()` returns. This includes the `text/plain` default for a missing or malformed `Content-Type`.
- The server is assumed to answer a fetch of the same id the same way every time, because the mailbox's `fetch` is a function. A mailbox that changes during the scan is not modelled.
- Mime.GetHeader: field names are compared with ASCII case folding only. Python compares them after Unicode `str.lower()`.
- `load_dotenv` and the logging setup are left out. `Handler.New` takes the two environment values as parameters.
- `datetime.now()` becomes the two parameters `uidNow` and `stampNow`.
- Microseconds and `tzinfo` of `datetime` are left out, because `strftime` with this format does not render them.
- DateTimes.Digits renders `%Y` as four zero-padded digits. Some C libraries do not pad years below 1000, so for those years the model may differ.
- The file write in `create_ics_file` is left out, and so are its failures and the silent overwrite of an existing file. The model returns the file name and the content instead.
- An event name containing `/` would name a path in another directory. The model keeps such a name as a plain string.
- Invite.ParseContent, Invite.ContentInjective and Invite.IcsFileReadsBack require that no free-text field contains a line feed. A field with one spreads over several lines, so the text no longer separates the fields uniquely.
- Invite.OneCalendarBlock and Invite.OneEventBlock are about the sixteen template lines, not the written text. A free-text field that holds line feeds adds lines to the text. For example, the description `x\nEND:VEVENT\nBEGIN:VEVENT` gives the file a second event. The model does not state the text-level form.
- Outbox.Basename is `posixpath.basename`: it splits only at `/`. On Windows `os.path` is `ntpath`, which also splits at `\` and after a drive colon. That variant is not modelled.
- Reading the attachment is the `readFile` parameter. A missing or unreadable file, which raises in the code, is not modelled.
- Every `Content-Transfer-Encoding` field is left out. This includes the one `encoders.encode_base64` adds to the attachment, and the one `MIMEText` sets on the body part: `7bit` for `us-ascii`, `base64` for `utf-8`. With `base64`, the stored payload is base64 text. So are `MIME-Version`, the rendered `Content-Type` field with its boundary, and the `as_string()` serialisation. The model keeps the decoded bytes and the part structure.
- The failures of `sendmail` and the logging around it are left out. `SendEmail` returns what is handed to the connection.
- The code attaches `msg_alt` to the root before attaching the text part to `msg_alt`, and relies on the two sharing one object. The model is built from values, so it attaches the finished alternative part. The resulting tree is the same.
- Inbox.SubjectsArePicked: the ensures about the k-th subject carries the guard `Picked[k] < |ids|`. `Inbox.PickedPositions` proves that the guard always holds.
- The exceptions raised by the code become `Failure` values (`ConfigError`, `ScanError`).
- `app.py` is left out: it only calls the handler. Of the tests, only the file-name example is modelled. The others check mocked network calls.
