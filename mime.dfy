/** The tree of MIME parts that a parsed or composed e-mail message forms
    (the objects of Python's `email.message.Message` family), reduced to what
    the mail handler reads and writes: the content type, the Content-Type
    parameters, the header fields in order, and the payload. */
module Mime {
  import opened Wrappers

  type byte = x: int | 0 <= x < 256

  /** A header field as stored: its name and its raw value. */
  datatype Header = Header(name: string, value: string)

  /** A parameter of the Content-Type field, such as `charset=us-ascii`. */
  datatype Param = Param(name: string, value: string)

  /** A leaf part carries text or bytes; a multipart part carries its sub-parts. */
  datatype Payload =
    | Text(text: string)
    | Bytes(data: seq<byte>)
    | Parts(parts: seq<Part>)

  /** One MIME part. `contentType` is the lower-case `maintype/subtype` that
      `get_content_type()` reports for the part. */
  datatype Part = Part(contentType: string, params: seq<Param>, headers: seq<Header>, payload: Payload)

  const Calendar := "text/calendar"

  /** The sub-parts of a part: empty unless it is a multipart. */
  function Children(p: Part): seq<Part>
  {
    match p.payload
    case Parts(ps) => ps
    case _ => []
  }

  // ---------------------------------------------------------------- headers

  function LowerChar(c: char): char
  {
    if 'A' <= c <= 'Z' then (c as int + 32) as char else c
  }

  function Lower(s: string): (r: string)
    ensures |r| == |s|
    ensures forall i :: 0 <= i < |s| ==> r[i] == LowerChar(s[i])
  {
    if s == [] then [] else [LowerChar(s[0])] + Lower(s[1..])
  }

  /** Header names compare without regard to letter case. */
  predicate SameName(a: string, b: string)
  {
    Lower(a) == Lower(b)
  }

  /** `msg[name]`: the value of the FIRST header whose name matches, or None. */
  function GetHeader(hs: seq<Header>, name: string): (r: Option<string>)
    ensures r.None? <==> forall i :: 0 <= i < |hs| ==> !SameName(hs[i].name, name)
    ensures r.Some? ==> exists i :: 0 <= i < |hs| && SameName(hs[i].name, name) && hs[i].value == r.value
                                    && forall j :: 0 <= j < i ==> !SameName(hs[j].name, name)
  {
    if hs == [] then None
    else if SameName(hs[0].name, name) then Some(hs[0].value)
    else
      var r := GetHeader(hs[1..], name);
      assert forall i :: 1 <= i < |hs| ==> hs[i] == hs[1..][i - 1];
      r
  }

  /** A field whose name differs in length from the one asked for is passed over. */
  lemma GetHeaderSkip(hs: seq<Header>, name: string)
    requires hs != [] && |hs[0].name| != |name|
    ensures GetHeader(hs, name) == GetHeader(hs[1..], name)
  {
  }

  /** `msg[name] = value` and `msg.add_header(name, value)`: both append a
      field, neither replaces an existing one. */
  function AddHeader(p: Part, name: string, value: string): (r: Part)
    ensures r.headers == p.headers + [Header(name, value)]
    ensures r.contentType == p.contentType && r.params == p.params && r.payload == p.payload
  {
    p.(headers := p.headers + [Header(name, value)])
  }

  /** `container.attach(part)`: appends a sub-part to a multipart. */
  function Attach(container: Part, part: Part): (r: Part)
    requires container.payload.Parts?
    ensures Children(r) == Children(container) + [part]
    ensures r.contentType == container.contentType && r.params == container.params
    ensures r.headers == container.headers
  {
    container.(payload := Parts(container.payload.parts + [part]))
  }

  // ------------------------------------------------------------------- walk

  /** `walk()`: the part itself, then the walk of each sub-part in order
      (a pre-order, depth-first traversal). */
  function Walk(p: Part): (r: seq<Part>)
    ensures |r| >= 1 && r[0] == p
    decreases p, 1
  {
    match p.payload
    case Parts(ps) => [p] + WalkAll(ps)
    case _ => [p]
  }

  function WalkAll(ps: seq<Part>): seq<Part>
    decreases ps, 0
  {
    if ps == [] then [] else Walk(ps[0]) + WalkAll(ps[1..])
  }

  /** Some part in the list has content type `t`. */
  predicate HasType(ps: seq<Part>, t: string)
  {
    exists k :: 0 <= k < |ps| && ps[k].contentType == t
  }

  /** Structural reference: `p` or some part nested in it has type `t`. */
  predicate Contains(p: Part, t: string)
    decreases p, 1
  {
    p.contentType == t ||
    match p.payload
    case Parts(ps) => ContainsAny(ps, t)
    case _ => false
  }

  predicate ContainsAny(ps: seq<Part>, t: string)
    decreases ps, 0
  {
    ps != [] && (Contains(ps[0], t) || ContainsAny(ps[1..], t))
  }

  lemma HasTypeConcat(a: seq<Part>, b: seq<Part>, t: string)
    ensures HasType(a + b, t) <==> HasType(a, t) || HasType(b, t)
  {
    if HasType(a + b, t) {
      var k :| 0 <= k < |a + b| && (a + b)[k].contentType == t;
      if k >= |a| { assert b[k - |a|].contentType == t; }
    }
    if HasType(a, t) {
      var k :| 0 <= k < |a| && a[k].contentType == t;
      assert (a + b)[k] == a[k];
    }
    if HasType(b, t) {
      var k :| 0 <= k < |b| && b[k].contentType == t;
      assert (a + b)[|a| + k] == b[k];
    }
  }

  /** The walk meets a part of type `t` exactly when the tree contains one. */
  lemma {:induction false} WalkFindsType(p: Part, t: string)
    ensures HasType(Walk(p), t) <==> Contains(p, t)
    decreases p, 1
  {
    match p.payload
    case Parts(ps) =>
      WalkAllFindsType(ps, t);
      HasTypeConcat([p], WalkAll(ps), t);
    case _ =>
  }

  lemma {:induction false} WalkAllFindsType(ps: seq<Part>, t: string)
    ensures HasType(WalkAll(ps), t) <==> ContainsAny(ps, t)
    decreases ps, 0
  {
    if ps != [] {
      WalkFindsType(ps[0], t);
      WalkAllFindsType(ps[1..], t);
      HasTypeConcat(Walk(ps[0]), WalkAll(ps[1..]), t);
    }
  }
}
