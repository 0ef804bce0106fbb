/** `fetch_calendar_responses`: scans every message of the inbox and keeps
    the subject of each one that is, or carries, a `text/calendar` part.
    The IMAP connection is modelled by what the server answers: the status
    of the search, the ids it lists, and the reply to a fetch of each id. */
module Inbox {
  import opened Wrappers
  import opened Mime

  /** The status word of an IMAP reply (section 7.1 of RFC 3501). */
  datatype Status = OK | NO | BAD

  /** The answer to `fetch(id, "(RFC822)")`: its status and the message the
      body parses into. */
  datatype FetchReply = FetchReply(status: Status, message: Part)

  /** What the server answers: the status of `search(None, "ALL")`, the ids
      it lists, and the reply it gives to a fetch of each id. */
  datatype Mailbox = Mailbox(searchStatus: Status, ids: seq<string>, fetch: string -> FetchReply)

  /** Why a scan stops: the search or one of the fetches was not `OK`. */
  datatype ScanError = SearchFailed | FetchFailed

  function Message(mb: Mailbox, id: string): Part
  {
    mb.fetch(id).message
  }

  /** `email_msg["Subject"]`: the first Subject field, or None when the
      message has none. */
  function SubjectOf(m: Part): Option<string>
  {
    GetHeader(m.headers, "Subject")
  }

  /** The test the loop makes on one message: its own type is
      `text/calendar`, or some part met by `walk()` has that type. */
  predicate IsCalendarResponse(m: Part)
  {
    m.contentType == Calendar || HasType(Walk(m), Calendar)
  }

  /** What one message adds to the list: its subject once, or nothing. */
  function Contribution(m: Part): seq<Option<string>>
  {
    if IsCalendarResponse(m) then [SubjectOf(m)] else []
  }

  /** The subjects collected from the messages of `ids`, in order. */
  function Subjects(mb: Mailbox, ids: seq<string>): seq<Option<string>>
  {
    if ids == [] then []
    else Subjects(mb, ids[..|ids| - 1]) + Contribution(Message(mb, ids[|ids| - 1]))
  }

  /** Every fetch of `ids` is answered `OK`. */
  predicate AllFetched(mb: Mailbox, ids: seq<string>)
  {
    forall i :: 0 <= i < |ids| ==> mb.fetch(ids[i]).status == OK
  }

  /** The outcome the scan promises: a failed search or any failed fetch
      raises; otherwise the collected subjects are returned. */
  function ScanResult(mb: Mailbox): Result<seq<Option<string>>, ScanError>
  {
    if mb.searchStatus != OK then Failure(SearchFailed)
    else if !AllFetched(mb, mb.ids) then Failure(FetchFailed)
    else Success(Subjects(mb, mb.ids))
  }

  /** The test one message goes through: its own type first, then the parts
      `walk()` yields, stopping at the first `text/calendar`. */
  method CheckMessage(msg: Part) returns (hit: bool)
    ensures hit <==> IsCalendarResponse(msg)
  {
    if msg.contentType == Calendar {
      return true;
    }
    var parts := Walk(msg);
    var j := 0;
    while j < |parts|
      invariant 0 <= j <= |parts|
      invariant forall k :: 0 <= k < j ==> parts[k].contentType != Calendar
    {
      if parts[j].contentType == Calendar {
        assert HasType(parts, Calendar);
        return true;
      }
      j := j + 1;
    }
    return false;
  }

  /** The scan itself: the search, then one fetch per id, keeping the
      subject of each message that passes the test. */
  method FetchCalendarResponses(mb: Mailbox) returns (r: Result<seq<Option<string>>, ScanError>)
    ensures r == ScanResult(mb)
    ensures r.Failure? <==> mb.searchStatus != OK || exists i :: 0 <= i < |mb.ids| && mb.fetch(mb.ids[i]).status != OK
  {
    if mb.searchStatus != OK {
      return Failure(SearchFailed);
    }
    var ids := mb.ids;
    var responses: seq<Option<string>> := [];
    var i := 0;
    while i < |ids|
      invariant 0 <= i <= |ids|
      invariant AllFetched(mb, ids[..i])
      invariant responses == Subjects(mb, ids[..i])
    {
      var reply := mb.fetch(ids[i]);
      if reply.status != OK {
        assert mb.fetch(mb.ids[i]).status != OK;
        return Failure(FetchFailed);
      }
      var msg := reply.message;
      var hit := CheckMessage(msg);
      if hit {
        responses := responses + [SubjectOf(msg)];
      }
      SubjectsStep(mb, ids, i);
      AllFetchedStep(mb, ids, i);
      i := i + 1;
    }
    assert ids[..i] == ids;
    assert AllFetched(mb, mb.ids);
    return Success(responses);
  }

  lemma SubjectsStep(mb: Mailbox, ids: seq<string>, i: nat)
    requires i < |ids|
    ensures Subjects(mb, ids[..i + 1]) == Subjects(mb, ids[..i]) + Contribution(Message(mb, ids[i]))
  {
    assert ids[..i + 1][..i] == ids[..i];
  }

  lemma AllFetchedStep(mb: Mailbox, ids: seq<string>, i: nat)
    requires i < |ids| && AllFetched(mb, ids[..i]) && mb.fetch(ids[i]).status == OK
    ensures AllFetched(mb, ids[..i + 1])
  {
    assert forall k :: 0 <= k < i ==> ids[..i + 1][k] == ids[..i][k];
  }

  // ------------------------------------------------------------ properties

  /** The message's own type needs no separate test: `walk()` starts with
      the message itself, and meets a calendar part exactly when the tree
      holds one. */
  lemma CalendarResponseIffContains(m: Part)
    ensures IsCalendarResponse(m) <==> HasType(Walk(m), Calendar)
    ensures IsCalendarResponse(m) <==> Contains(m, Calendar)
  {
    WalkFindsType(m, Calendar);
  }

  /** At most one subject per message. */
  lemma ContributionAtMostOne(m: Part)
    ensures |Contribution(m)| <= 1
    ensures |Contribution(m)| == 1 <==> IsCalendarResponse(m)
  {
  }

  lemma {:induction false} SubjectsBound(mb: Mailbox, ids: seq<string>)
    ensures |Subjects(mb, ids)| <= |ids|
  {
    if ids != [] {
      SubjectsBound(mb, ids[..|ids| - 1]);
    }
  }

  /** Scanning two runs of ids one after the other collects the two lists in
      order. */
  lemma {:induction false} SubjectsAppend(mb: Mailbox, a: seq<string>, b: seq<string>)
    ensures Subjects(mb, a + b) == Subjects(mb, a) + Subjects(mb, b)
    decreases |b|
  {
    if b == [] {
      assert a + b == a;
    } else {
      var b' := b[..|b| - 1];
      assert (a + b)[..|a + b| - 1] == a + b';
      SubjectsAppend(mb, a, b');
    }
  }

  /** The positions among `ids` of the messages that qualify, in increasing order. */
  function Picked(mb: Mailbox, ids: seq<string>): seq<nat>
  {
    if ids == [] then []
    else
      Picked(mb, ids[..|ids| - 1])
      + (if IsCalendarResponse(Message(mb, ids[|ids| - 1])) then [|ids| - 1] else [])
  }

  /** `Picked` lists exactly the qualifying positions, each once, in order. */
  lemma {:induction false} PickedPositions(mb: Mailbox, ids: seq<string>)
    ensures forall k :: 0 <= k < |Picked(mb, ids)| ==> Picked(mb, ids)[k] < |ids|
    ensures forall k, l :: 0 <= k < l < |Picked(mb, ids)| ==> Picked(mb, ids)[k] < Picked(mb, ids)[l]
    ensures forall i :: 0 <= i < |ids| ==> (i in Picked(mb, ids) <==> IsCalendarResponse(Message(mb, ids[i])))
  {
    if ids != [] {
      var front := ids[..|ids| - 1];
      PickedPositions(mb, front);
      assert forall i :: 0 <= i < |front| ==> front[i] == ids[i];
    }
  }

  /** The result holds, in order, the subject of each qualifying message and
      nothing else. */
  lemma {:induction false} SubjectsArePicked(mb: Mailbox, ids: seq<string>)
    ensures |Subjects(mb, ids)| == |Picked(mb, ids)|
    ensures forall k :: 0 <= k < |Picked(mb, ids)| && Picked(mb, ids)[k] < |ids| ==>
              Subjects(mb, ids)[k] == SubjectOf(Message(mb, ids[Picked(mb, ids)[k]]))
  {
    if ids != [] {
      var front := ids[..|ids| - 1];
      var last := Message(mb, ids[|ids| - 1]);
      SubjectsArePicked(mb, front);
      PickedPositions(mb, front);
      var sf, pf := Subjects(mb, front), Picked(mb, front);
      var s, p := Subjects(mb, ids), Picked(mb, ids);
      assert s == sf + Contribution(last);
      assert p == pf + (if IsCalendarResponse(last) then [|ids| - 1] else []);
      forall k | 0 <= k < |p| && p[k] < |ids|
        ensures s[k] == SubjectOf(Message(mb, ids[p[k]]))
      {
        if k < |pf| {
          assert s[k] == sf[k] && p[k] == pf[k];
          assert front[pf[k]] == ids[pf[k]];
        } else {
          assert s[k] == SubjectOf(last) && p[k] == |ids| - 1;
        }
      }
    }
  }

  /** A mailbox without calendar responses yields an empty list. */
  lemma NoCalendarNoSubjects(mb: Mailbox, ids: seq<string>)
    requires forall i :: 0 <= i < |ids| ==> !IsCalendarResponse(Message(mb, ids[i]))
    ensures Subjects(mb, ids) == []
  {
    SubjectsArePicked(mb, ids);
    PickedPositions(mb, ids);
  }
}
