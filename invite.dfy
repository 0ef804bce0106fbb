/** `create_ics_file`: the calendar invitation the handler writes, a
    `VCALENDAR` object holding one `VEVENT` (sections 3.4 and 3.6.1 of
    RFC 5545) with `METHOD:REQUEST` (section 3.2.2 of RFC 5546), and the
    name of the file it goes to. The file write is modelled by returning the
    content; the two readings of the clock are parameters. */
module Invite {
  import opened Wrappers
  import opened DateTimes
  import Handler

  datatype Event = Event(name: string, start: DateTime, end: DateTime,
                         description: string, location: string, attendee: string)

  /** What one call produces: the file name it returns and the text it writes. */
  datatype IcsFile = IcsFile(filename: string, content: string)

  /** Everything the text is made from: the organizer address, the event, and
      the two readings of the clock (for `UID` and for `DTSTAMP`). */
  datatype Invitation = Invitation(organizer: string, event: Event, uidNow: DateTime, stampNow: DateTime)

  /** The four date-times of the event block, in the order they appear. */
  datatype Clocks = Clocks(uid: DateTime, stamp: DateTime, start: DateTime, end: DateTime)

  /** The five free-text values of the event block, in the order they appear. */
  datatype Fields = Fields(name: string, description: string, location: string,
                           organizer: string, attendee: string)

  function ClocksOf(inv: Invitation): Clocks
  {
    Clocks(inv.uidNow, inv.stampNow, inv.event.start, inv.event.end)
  }

  function FieldsOf(inv: Invitation): Fields
  {
    Fields(inv.event.name, inv.event.description, inv.event.location, inv.organizer, inv.event.attendee)
  }

  /** The text after the stamp in the `UID` line. */
  const UidSuffix := "@yourdomain.com"

  /** The organizer and attendee lines: property name, parameters, and the
      `MAILTO:` scheme the address follows. */
  const OrganizerPrefix := "ORGANIZER;" + "CN=Organizer:MAILTO:"
  const AttendeePrefix := "ATTENDEE;" + "RSVP=TRUE;CN=Attendee;PARTSTAT=NEEDS-ACTION:MAILTO:"

  // Each line is written as its property name (with the colon) followed by
  // its value, the split by which the reader below takes the text apart; a
  // date-time line's value is the stamp and the fixed text after it (empty
  // for `DTSTART` and `DTEND`).

  /** The calendar's opening lines, up to and including `BEGIN:VEVENT`. */
  function HeadLines(): seq<string>
  {
    [ "BEGIN:" + "VCALENDAR",
      "VERSION:" + "2.0",
      "PRODID:" + "-//Your Organization//Your Product//EN",
      "METHOD:" + "REQUEST",
      "BEGIN:" + "VEVENT" ]
  }

  /** The event's identifier and its three date-time properties. */
  function ClockLines(c: Clocks): seq<string>
  {
    [ "UID:" + (Stamp(c.uid) + UidSuffix),
      "DTSTAMP:" + (Stamp(c.stamp) + "Z"),
      "DTSTART:" + (Stamp(c.start) + ""),
      "DTEND:" + (Stamp(c.end) + "") ]
  }

  /** The event's free-text properties and its two participants. */
  function FieldLines(f: Fields): seq<string>
  {
    [ "SUMMARY:" + f.name,
      "DESCRIPTION:" + f.description,
      "LOCATION:" + f.location,
      OrganizerPrefix + f.organizer,
      AttendeePrefix + f.attendee ]
  }

  /** The closing lines of the event and of the calendar. */
  function TailLines(): seq<string>
  {
    [ "END:" + "VEVENT", "END:" + "VCALENDAR" ]
  }

  /** The template's lines, in order: the calendar's opening lines, the event
      block from `BEGIN:VEVENT` to `END:VEVENT`, and the closing line. */
  function Lines(inv: Invitation): (ls: seq<string>)
    ensures |ls| == 16
  {
    HeadLines() + ClockLines(ClocksOf(inv)) + FieldLines(FieldsOf(inv)) + TailLines()
  }

  /** `"\n".join(ls)` */
  function JoinLines(ls: seq<string>): string
  {
    if |ls| == 0 then "" else if |ls| == 1 then ls[0] else ls[0] + ("\n" + JoinLines(ls[1..]))
  }

  /** The text written to the file: the template's lines separated by a
      bare line feed (not the CRLF of section 3.1 of RFC 5545). */
  function Content(inv: Invitation): string
  {
    JoinLines(Lines(inv))
  }

  lemma JoinStep(ls: seq<string>, k: nat)
    requires k + 1 < |ls|
    ensures JoinLines(ls[k..]) == ls[k] + ("\n" + JoinLines(ls[k + 1..]))
  {
    assert ls[k..][1..] == ls[k + 1..];
  }

  lemma {:induction false} JoinAppend(a: seq<string>, b: seq<string>)
    requires |a| > 0 && |b| > 0
    ensures JoinLines(a + b) == JoinLines(a) + ("\n" + JoinLines(b))
  {
    if |a| == 1 {
      assert (a + b)[1..] == b;
    } else {
      assert (a + b)[1..] == a[1..] + b;
      JoinAppend(a[1..], b);
    }
  }

  /** The text is the four blocks joined by line feeds. */
  lemma ContentBlocks(inv: Invitation)
    ensures Content(inv)
      == JoinLines(HeadLines()) + ("\n" + (JoinLines(ClockLines(ClocksOf(inv)))
         + ("\n" + (JoinLines(FieldLines(FieldsOf(inv))) + ("\n" + JoinLines(TailLines()))))))
  {
    var h, c, f, t := HeadLines(), ClockLines(ClocksOf(inv)), FieldLines(FieldsOf(inv)), TailLines();
    assert h + c + f + t == h + (c + (f + t));
    JoinAppend(f, t);
    JoinAppend(c, f + t);
    JoinAppend(h, c + (f + t));
  }

  lemma HeadInitials()
    ensures var ls := HeadLines();
      ls[0][0] == 'B' && ls[1][0] == 'V' && ls[2][0] == 'P' && ls[3][0] == 'M' && ls[4][0] == 'B'
  {
  }

  lemma ClockInitials(c: Clocks)
    ensures var ls := ClockLines(c);
      ls[0][0] == 'U' && ls[1][0] == 'D' && ls[2][0] == 'D' && ls[3][0] == 'D'
  {
  }

  lemma FieldInitials(f: Fields)
    ensures var ls := FieldLines(f);
      ls[0][0] == 'S' && ls[1][0] == 'D' && ls[2][0] == 'L' && ls[3][0] == 'O' && ls[4][0] == 'A'
  {
  }

  /** The first character of each line that does not open or close a block. */
  lemma LineInitials(inv: Invitation)
    ensures var ls := Lines(inv);
      && ls[0][0] == 'B' && ls[4][0] == 'B'
      && ls[1][0] == 'V' && ls[2][0] == 'P' && ls[3][0] == 'M'
      && ls[5][0] == 'U' && ls[6][0] == 'D' && ls[7][0] == 'D' && ls[8][0] == 'D'
      && ls[9][0] == 'S' && ls[10][0] == 'D' && ls[11][0] == 'L' && ls[12][0] == 'O' && ls[13][0] == 'A'
      && ls[14] == "END:" + "VEVENT" && ls[15] == "END:" + "VCALENDAR"
  {
    var h, c, f, t := HeadLines(), ClockLines(ClocksOf(inv)), FieldLines(FieldsOf(inv)), TailLines();
    HeadInitials();
    ClockInitials(ClocksOf(inv));
    FieldInitials(FieldsOf(inv));
    var ls := Lines(inv);
    assert forall i :: 0 <= i < 5 ==> ls[i] == h[i];
    assert forall i :: 0 <= i < 4 ==> ls[5 + i] == c[i];
    assert forall i :: 0 <= i < 5 ==> ls[9 + i] == f[i];
    assert ls[14] == t[0] && ls[15] == t[1];
  }

  lemma ClockPrefixes(c: Clocks)
    ensures var ls := ClockLines(c);
      "UID:" <= ls[0] && "DTSTAMP:" <= ls[1] && "DTSTART:" <= ls[2] && "DTEND:" <= ls[3]
  {
  }

  lemma FieldPrefixes(f: Fields)
    ensures var ls := FieldLines(f);
      && "SUMMARY:" <= ls[0] && "DESCRIPTION:" <= ls[1] && "LOCATION:" <= ls[2]
      && OrganizerPrefix <= ls[3] && AttendeePrefix <= ls[4]
  {
  }

  /** The property each of the sixteen lines holds, in the order of the
      template: the five opening lines and the two closing lines exactly,
      and the name and parameters each of the nine others begins with. */
  lemma LinePrefixes(inv: Invitation)
    ensures var ls := Lines(inv);
      && ls[..5] == HeadLines() && ls[14..] == TailLines()
      && "UID:" <= ls[5] && "DTSTAMP:" <= ls[6] && "DTSTART:" <= ls[7] && "DTEND:" <= ls[8]
      && "SUMMARY:" <= ls[9] && "DESCRIPTION:" <= ls[10] && "LOCATION:" <= ls[11]
      && OrganizerPrefix <= ls[12] && AttendeePrefix <= ls[13]
  {
    var c, f := ClockLines(ClocksOf(inv)), FieldLines(FieldsOf(inv));
    ClockPrefixes(ClocksOf(inv));
    FieldPrefixes(FieldsOf(inv));
    var ls := Lines(inv);
    assert forall i :: 0 <= i < 4 ==> ls[5 + i] == c[i];
    assert forall i :: 0 <= i < 5 ==> ls[9 + i] == f[i];
  }

  /** The calendar is opened and closed once: of the sixteen lines only the
      first is `BEGIN:VCALENDAR` and only the last `END:VCALENDAR`. */
  lemma OneCalendarBlock(inv: Invitation)
    ensures var ls := Lines(inv);
      && (forall i :: 0 <= i < 16 ==> (ls[i] == "BEGIN:" + "VCALENDAR" <==> i == 0))
      && (forall i :: 0 <= i < 16 ==> (ls[i] == "END:" + "VCALENDAR" <==> i == 15))
  {
    LineInitials(inv);
  }

  /** The calendar holds exactly one event: only the fifth line is
      `BEGIN:VEVENT` and only the fifteenth `END:VEVENT`. */
  lemma OneEventBlock(inv: Invitation)
    ensures var ls := Lines(inv);
      && (forall i :: 0 <= i < 16 ==> (ls[i] == "BEGIN:" + "VEVENT" <==> i == 4))
      && (forall i :: 0 <= i < 16 ==> (ls[i] == "END:" + "VEVENT" <==> i == 14))
  {
    LineInitials(inv);
  }

  // ------------------------------------------------------ reading back

  /** A value read from the front of a text, and the text after it. */
  datatype Parsed<T> = Parsed(value: T, rest: string)

  /** The string holds no line feed. */
  predicate OneLine(s: string)
  {
    '\n' !in s
  }

  function StripPrefix(p: string, s: string): (r: Option<string>)
  {
    if |p| <= |s| && s[..|p|] == p then Some(s[|p|..]) else None
  }

  lemma StripPrefixOf(p: string, x: string)
    ensures StripPrefix(p, p + x) == Some(x)
  {
    assert (p + x)[..|p|] == p;
    assert (p + x)[|p|..] == x;
  }

  /** Reads up to the next line feed and drops it. */
  function TakeLine(s: string): (r: Option<Parsed<string>>)
  {
    if s == [] then None
    else if s[0] == '\n' then Some(Parsed("", s[1..]))
    else
      var r :- TakeLine(s[1..]);
      Some(Parsed([s[0]] + r.value, r.rest))
  }

  lemma {:induction false} TakeLineOf(x: string, rest: string)
    requires OneLine(x)
    ensures TakeLine(x + ("\n" + rest)) == Some(Parsed(x, rest))
  {
    if x == [] {
      assert x + ("\n" + rest) == "\n" + rest;
    } else {
      assert (x + ("\n" + rest))[1..] == x[1..] + ("\n" + rest);
      assert x[0] in x;
      TakeLineOf(x[1..], rest);
      assert [x[0]] + x[1..] == x;
    }
  }

  /** Reads a basic-form date-time from the front of the text. */
  function TakeStamp(s: string): (r: Option<Parsed<DateTime>>)
  {
    if |s| < 15 then None
    else
      var d :- ParseStamp(s[..15]);
      Some(Parsed(d, s[15..]))
  }

  /** Reads one fixed line of the template. */
  function ExpectLine(line: string, s: string): Option<string>
  {
    StripPrefix(line + "\n", s)
  }

  lemma ExpectLineOf(line: string, x: string)
    ensures ExpectLine(line, line + ("\n" + x)) == Some(x)
  {
    assert line + ("\n" + x) == (line + "\n") + x;
    StripPrefixOf(line + "\n", x);
  }

  /** Reads a line `prefix` + value, the value running to the line feed. */
  function TextField(prefix: string, s: string): (r: Option<Parsed<string>>)
  {
    var r :- StripPrefix(prefix, s);
    TakeLine(r)
  }

  lemma TextFieldOf(prefix: string, v: string, x: string)
    requires OneLine(v)
    ensures TextField(prefix, (prefix + v) + ("\n" + x)) == Some(Parsed(v, x))
  {
    assert (prefix + v) + ("\n" + x) == prefix + (v + ("\n" + x));
    StripPrefixOf(prefix, v + ("\n" + x));
    TakeLineOf(v, x);
  }

  /** Reads a line `prefix` + date-time + `suffix`. */
  function StampField(prefix: string, suffix: string, s: string): (r: Option<Parsed<DateTime>>)
  {
    var r :- StripPrefix(prefix, s);
    var t :- TakeStamp(r);
    var rest :- ExpectLine(suffix, t.rest);
    Some(Parsed(t.value, rest))
  }

  lemma StampFieldOf(prefix: string, d: DateTime, suffix: string, x: string)
    ensures StampField(prefix, suffix, (prefix + (Stamp(d) + suffix)) + ("\n" + x)) == Some(Parsed(d, x))
  {
    var s := Stamp(d);
    var rest := suffix + ("\n" + x);
    assert (prefix + (s + suffix)) + ("\n" + x) == prefix + (s + rest);
    StripPrefixOf(prefix, s + rest);
    assert (s + rest)[..15] == s && (s + rest)[15..] == rest;
    StampRoundTrip(d);
    ExpectLineOf(suffix, x);
  }

  /** Reads a run of fixed lines. */
  function ExpectLines(fixed: seq<string>, s: string): (r: Option<string>)
    decreases |fixed|
  {
    if fixed == [] then Some(s)
    else
      var r :- ExpectLine(fixed[0], s);
      ExpectLines(fixed[1..], r)
  }

  lemma {:induction false} ExpectLinesOf(fixed: seq<string>, x: string)
    requires |fixed| > 0
    ensures ExpectLines(fixed, JoinLines(fixed) + ("\n" + x)) == Some(x)
    decreases |fixed|
  {
    if |fixed| == 1 {
      ExpectLineOf(fixed[0], x);
      assert fixed[1..] == [];
    } else {
      var more := JoinLines(fixed[1..]);
      assert JoinLines(fixed) + ("\n" + x) == fixed[0] + ("\n" + (more + ("\n" + x)));
      ExpectLineOf(fixed[0], more + ("\n" + x));
      ExpectLinesOf(fixed[1..], x);
    }
  }

  /** Reads the `UID`, `DTSTAMP`, `DTSTART` and `DTEND` lines. */
  function ParseClocks(s: string): Option<Parsed<Clocks>>
  {
    var made :- ParseIdentity(s);
    var span :- ParseSpan(made.rest);
    Some(Parsed(Clocks(made.value.0, made.value.1, span.value.0, span.value.1), span.rest))
  }

  /** Reads the `UID` and `DTSTAMP` lines: the two readings of the clock. */
  function ParseIdentity(s: string): Option<Parsed<(DateTime, DateTime)>>
  {
    var uid :- StampField("UID:", UidSuffix, s);
    var stamp :- StampField("DTSTAMP:", "Z", uid.rest);
    Some(Parsed((uid.value, stamp.value), stamp.rest))
  }

  /** Reads the `DTSTART` and `DTEND` lines: the event's time span. */
  function ParseSpan(s: string): Option<Parsed<(DateTime, DateTime)>>
  {
    var start :- StampField("DTSTART:", "", s);
    var end :- StampField("DTEND:", "", start.rest);
    Some(Parsed((start.value, end.value), end.rest))
  }

  /** Reads the descriptive properties: `SUMMARY`, `DESCRIPTION`, `LOCATION`
      (section 3.8.1 of RFC 5545). */
  function ParseDescriptive(s: string): Option<Parsed<(string, string, string)>>
  {
    var name :- TextField("SUMMARY:", s);
    var description :- TextField("DESCRIPTION:", name.rest);
    var location :- TextField("LOCATION:", description.rest);
    Some(Parsed((name.value, description.value, location.value), location.rest))
  }

  /** Reads the relationship properties: `ORGANIZER`, `ATTENDEE`
      (section 3.8.4 of RFC 5545). */
  function ParseRelationship(s: string): Option<Parsed<(string, string)>>
  {
    var organizer :- TextField(OrganizerPrefix, s);
    var attendee :- TextField(AttendeePrefix, organizer.rest);
    Some(Parsed((organizer.value, attendee.value), attendee.rest))
  }

  /** Reads the `SUMMARY` to `ATTENDEE` lines. */
  function ParseFields(s: string): Option<Parsed<Fields>>
  {
    var d :- ParseDescriptive(s);
    var p :- ParseRelationship(d.rest);
    Some(Parsed(Fields(d.value.0, d.value.1, d.value.2, p.value.0, p.value.1), p.rest))
  }

  /** A reader for the template: recovers everything an invitation text was
      made from, or None when the text does not follow the template. */
  function ParseIcs(text: string): Option<Invitation>
  {
    var r :- ExpectLines(HeadLines(), text);
    var c :- ParseClocks(r);
    var f :- ParseFields(c.rest);
    var r :- ExpectLine("END:" + "VEVENT", f.rest);
    if r != "END:" + "VCALENDAR" then None
    else
      var cl := c.value;
      var fs := f.value;
      Some(Invitation(fs.organizer,
                      Event(fs.name, cl.start, cl.end, fs.description, fs.location, fs.attendee),
                      cl.uid, cl.stamp))
  }

  /** The free-text inputs hold no line feed, so each stays on its line. */
  predicate SingleLineFields(inv: Invitation)
  {
    && OneLine(inv.organizer) && OneLine(inv.event.name) && OneLine(inv.event.description)
    && OneLine(inv.event.location) && OneLine(inv.event.attendee)
  }

  lemma StampFieldAt(ls: seq<string>, k: nat, prefix: string, d: DateTime, suffix: string)
    requires k + 1 < |ls| && ls[k] == prefix + (Stamp(d) + suffix)
    ensures StampField(prefix, suffix, JoinLines(ls[k..])) == Some(Parsed(d, JoinLines(ls[k + 1..])))
  {
    JoinStep(ls, k);
    StampFieldOf(prefix, d, suffix, JoinLines(ls[k + 1..]));
  }

  lemma TextFieldAt(ls: seq<string>, k: nat, prefix: string, v: string)
    requires k + 1 < |ls| && ls[k] == prefix + v && OneLine(v)
    ensures TextField(prefix, JoinLines(ls[k..])) == Some(Parsed(v, JoinLines(ls[k + 1..])))
  {
    JoinStep(ls, k);
    TextFieldOf(prefix, v, JoinLines(ls[k + 1..]));
  }

  lemma IdentityAt(ls: seq<string>, c: Clocks)
    requires |ls| == 5 && ls[0] == "UID:" + (Stamp(c.uid) + UidSuffix)
    requires ls[1] == "DTSTAMP:" + (Stamp(c.stamp) + "Z")
    ensures ParseIdentity(JoinLines(ls)) == Some(Parsed((c.uid, c.stamp), JoinLines(ls[2..])))
  {
    assert ls[0..] == ls;
    StampFieldAt(ls, 0, "UID:", c.uid, UidSuffix);
    var uid := StampField("UID:", UidSuffix, JoinLines(ls));
    assert uid == Some(Parsed(c.uid, JoinLines(ls[1..])));
    StampFieldAt(ls, 1, "DTSTAMP:", c.stamp, "Z");
  }

  lemma SpanAt(ls: seq<string>, c: Clocks)
    requires |ls| == 5 && ls[2] == "DTSTART:" + (Stamp(c.start) + "")
    requires ls[3] == "DTEND:" + (Stamp(c.end) + "")
    ensures ParseSpan(JoinLines(ls[2..])) == Some(Parsed((c.start, c.end), ls[4]))
  {
    assert ls[4..] == [ls[4]];
    StampFieldAt(ls, 2, "DTSTART:", c.start, "");
    StampFieldAt(ls, 3, "DTEND:", c.end, "");
  }

  lemma ClocksText(c: Clocks, x: string)
    ensures ParseClocks(JoinLines(ClockLines(c)) + ("\n" + x)) == Some(Parsed(c, x))
  {
    var ls := ClockLines(c) + [x];
    JoinAppend(ClockLines(c), [x]);
    IdentityAt(ls, c);
    SpanAt(ls, c);
  }

  lemma DescriptiveAt(ls: seq<string>, f: Fields)
    requires |ls| == 6 && OneLine(f.name) && OneLine(f.description) && OneLine(f.location)
    requires ls[0] == "SUMMARY:" + f.name && ls[1] == "DESCRIPTION:" + f.description
    requires ls[2] == "LOCATION:" + f.location
    ensures ParseDescriptive(JoinLines(ls)) == Some(Parsed((f.name, f.description, f.location), JoinLines(ls[3..])))
  {
    assert ls[0..] == ls;
    TextFieldAt(ls, 0, "SUMMARY:", f.name);
    TextFieldAt(ls, 1, "DESCRIPTION:", f.description);
    TextFieldAt(ls, 2, "LOCATION:", f.location);
  }

  lemma RelationshipAt(ls: seq<string>, f: Fields)
    requires |ls| == 6 && OneLine(f.organizer) && OneLine(f.attendee)
    requires ls[3] == OrganizerPrefix + f.organizer && ls[4] == AttendeePrefix + f.attendee
    ensures ParseRelationship(JoinLines(ls[3..])) == Some(Parsed((f.organizer, f.attendee), ls[5]))
  {
    assert ls[5..] == [ls[5]];
    TextFieldAt(ls, 3, OrganizerPrefix, f.organizer);
    TextFieldAt(ls, 4, AttendeePrefix, f.attendee);
  }

  lemma FieldsText(f: Fields, x: string)
    requires OneLine(f.name) && OneLine(f.description) && OneLine(f.location)
    requires OneLine(f.organizer) && OneLine(f.attendee)
    ensures ParseFields(JoinLines(FieldLines(f)) + ("\n" + x)) == Some(Parsed(f, x))
  {
    var ls := FieldLines(f) + [x];
    JoinAppend(FieldLines(f), [x]);
    DescriptiveAt(ls, f);
    RelationshipAt(ls, f);
  }

  lemma TailText()
    ensures ExpectLine("END:" + "VEVENT", JoinLines(TailLines())) == Some("END:" + "VCALENDAR")
  {
    var t := TailLines();
    assert t[1..] == ["END:" + "VCALENDAR"];
    ExpectLineOf(t[0], t[1]);
  }

  /** Every field reaches the text verbatim: reading the text back yields the
      organizer, the event and both clock readings unchanged. */
  lemma ParseContent(inv: Invitation)
    requires SingleLineFields(inv)
    ensures ParseIcs(Content(inv)) == Some(inv)
  {
    var c, f := ClockLines(ClocksOf(inv)), FieldLines(FieldsOf(inv));
    var tail := JoinLines(TailLines());
    var fields := JoinLines(f) + ("\n" + tail);
    var clocks := JoinLines(c) + ("\n" + fields);
    ContentBlocks(inv);
    ExpectLinesOf(HeadLines(), clocks);
    ClocksText(ClocksOf(inv), fields);
    FieldsText(FieldsOf(inv), tail);
    TailText();
  }

  /** Distinct invitations give distinct texts. */
  lemma ContentInjective(a: Invitation, b: Invitation)
    requires SingleLineFields(a) && SingleLineFields(b)
    requires Content(a) == Content(b)
    ensures a == b
  {
    ParseContent(a);
    ParseContent(b);
  }

  /** The two readings of the clock reach only the `UID` and `DTSTAMP`
      lines; every other line depends on the organizer and the event alone. */
  lemma OnlyClockLinesVary(inv: Invitation, uidNow: DateTime, stampNow: DateTime)
    ensures var other := inv.(uidNow := uidNow, stampNow := stampNow);
      forall i :: 0 <= i < 16 && i != 5 && i != 6 ==> Lines(inv)[i] == Lines(other)[i]
  {
    var other := inv.(uidNow := uidNow, stampNow := stampNow);
    var c, d := ClockLines(ClocksOf(inv)), ClockLines(ClocksOf(other));
    assert c[2] == d[2] && c[3] == d[3];
  }

  /** `event_name.replace(' ', '_')` is a per-character replacement. */
  function ReplaceChar(s: string, a: char, b: char): (r: string)
    ensures |r| == |s|
    ensures forall i :: 0 <= i < |s| ==> r[i] == (if s[i] == a then b else s[i])
  {
    if s == [] then [] else [if s[0] == a then b else s[0]] + ReplaceChar(s[1..], a, b)
  }

  /** The file name: the event name with every space turned into an
      underscore, then `.ics`. */
  function Filename(eventName: string): (r: string)
    ensures |r| == |eventName| + 4 && r[|eventName|..] == ".ics"
    ensures forall i :: 0 <= i < |eventName| && eventName[i] != ' ' ==> r[i] == eventName[i]
    ensures forall i :: 0 <= i < |eventName| && eventName[i] == ' ' ==> r[i] == '_'
    ensures ' ' !in r
  {
    ReplaceChar(eventName, ' ', '_') + ".ics"
  }

  /** A space after a space-free first word becomes an underscore; the rest
      of the name is replaced on its own. */
  lemma ReplaceAfterWord(w: string, v: string)
    requires ' ' !in w
    ensures ReplaceChar(w + " " + v, ' ', '_') == w + "_" + ReplaceChar(v, ' ', '_')
  {
    var s, t := w + " " + v, w + "_" + ReplaceChar(v, ' ', '_');
    var r := ReplaceChar(s, ' ', '_');
    forall i | 0 <= i < |s|
      ensures r[i] == t[i]
    {
      if i < |w| {
        assert s[i] == w[i] && t[i] == w[i];
        assert w[i] in w;
      } else if i > |w| {
        assert s[i] == v[i - |w| - 1];
      }
    }
    assert r == t;
  }

  /** A name without spaces is kept as it is. */
  lemma ReplaceCharAbsent(s: string, a: char, b: char)
    requires a !in s
    ensures ReplaceChar(s, a, b) == s
  {
    assert forall i :: 0 <= i < |s| ==> s[i] != a;
  }

  /** The example of the handler's own test: `Test Event` gives `Test_Event.ics`. */
  lemma FilenameOfTestEvent()
    ensures Filename("Test Event") == "Test_Event.ics"
  {
    assert "Test Event" == "Test" + " " + "Event";
    assert "Test_Event.ics" == "Test" + "_" + "Event" + ".ics";
    ReplaceAfterWord("Test", "Event");
    ReplaceCharAbsent("Event", ' ', '_');
  }

  /** The two-word tail of the next example. */
  lemma ReplaceWithTeam()
    ensures ReplaceChar("with Team", ' ', '_') == "with_Team"
  {
    assert "with Team" == "with" + " " + "Team";
    assert "with_Team" == "with" + "_" + "Team";
    ReplaceAfterWord("with", "Team");
    ReplaceCharAbsent("Team", ' ', '_');
  }

  /** `Meeting with Team` gives `Meeting_with_Team.ics`. */
  lemma FilenameOfMeetingWithTeam()
    ensures Filename("Meeting with Team") == "Meeting_with_Team.ics"
  {
    assert "Meeting with Team" == "Meeting" + " " + "with Team";
    assert "Meeting_with_Team.ics" == "Meeting" + "_" + "with_Team" + ".ics";
    ReplaceAfterWord("Meeting", "with Team");
    ReplaceWithTeam();
  }

  /** `self.create_ics_file(...)`: the file name returned and the content
      written, with the handler's address as organizer. */
  function CreateIcsFile(h: Handler.MailHandler, e: Event, uidNow: DateTime, stampNow: DateTime): IcsFile
  {
    IcsFile(Filename(e.name), Content(Invitation(h.userEmail, e, uidNow, stampNow)))
  }

  /** The file written reads back as the event, the handler's address as
      organizer and the two clock readings; its name is the event's name
      with underscores for spaces and the `.ics` extension. */
  lemma IcsFileReadsBack(h: Handler.MailHandler, e: Event, uidNow: DateTime, stampNow: DateTime)
    requires SingleLineFields(Invitation(h.userEmail, e, uidNow, stampNow))
    ensures ParseIcs(CreateIcsFile(h, e, uidNow, stampNow).content) == Some(Invitation(h.userEmail, e, uidNow, stampNow))
    ensures var n := CreateIcsFile(h, e, uidNow, stampNow).filename;
      |n| == |e.name| + 4 && n[|e.name|..] == ".ics" && ' ' !in n
  {
    ParseContent(Invitation(h.userEmail, e, uidNow, stampNow));
  }
}
