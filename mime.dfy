/**
 * Body selection in processMessage (main.go): the MIME reader's parts are walked
 * in order and the text of the last text/plain part becomes the prompt. Parsing
 * itself (the mail reader, media-type parsing) is done by libraries, so a part
 * arrives here already parsed, or with the error its parser reported.
 */
module Mime {
  import opened Wrappers

  /** The result of parsing a part's Content-Type: the media type, or a parse error
      (an absent Content-Type header is a parse error too). */
  datatype MediaType = MediaType(value: string) | Malformed

  /** What reading a part's body gives: its text, or a read error. */
  datatype Content = Content(text: string) | ReadFailure

  datatype Part = Part(mediaType: MediaType, content: Content)

  /** How the part iterator stops after the parts it delivered: end of input, or an error. */
  datatype PartsEnd = Eof | IterationFailure

  /** The full body section handed to the mail reader: a header the reader rejects, or the
      parts it delivers followed by how the iteration ends. */
  datatype MimeBody = HeaderFailure | Parts(parts: seq<Part>, end: PartsEnd)

  /** Each decoding failure ends the whole process (log.Fatal). */
  datatype DecodeFailure = ReaderFailed | NextPartFailed | MediaTypeFailed | ReadFailed

  datatype Decoded = Decoded(text: string) | DecodeFailed(failure: DecodeFailure)

  const PlainText: string := "text/plain"

  /** The media type starts with text/plain: a prefix test, so any media type that begins
      with `text/plain`, such as `text/plainx`, passes. */
  predicate IsPlainText(p: Part)
  {
    p.mediaType.MediaType? && PlainText <= p.mediaType.value
  }

  /** The part stops the decoder: its media type does not parse, or it is text/plain and its
      body cannot be read. The body of any other part is never read. */
  predicate Breaks(p: Part)
  {
    p.mediaType.Malformed? || (IsPlainText(p) && p.content.ReadFailure?)
  }

  function PartFailure(p: Part): DecodeFailure
    requires Breaks(p)
  {
    if p.mediaType.Malformed? then MediaTypeFailed else ReadFailed
  }

  /** The parts left to right, as the decoding loop walks them, carrying in `acc` the text
      chosen so far. */
  function Scan(parts: seq<Part>, end: PartsEnd, acc: string): Decoded
    decreases |parts|
  {
    if parts == [] then
      if end == IterationFailure then DecodeFailed(NextPartFailed) else Decoded(acc)
    else if Breaks(parts[0]) then DecodeFailed(PartFailure(parts[0]))
    else Scan(parts[1..], end, if IsPlainText(parts[0]) then parts[0].content.text else acc)
  }

  /** The text the body yields, or the failure that ends the process. */
  function Decode(body: MimeBody): Decoded
  {
    match body
    case HeaderFailure => DecodeFailed(ReaderFailed)
    case Parts(parts, end) => Scan(parts, end, "")
  }

  /** The decoding loop of processMessage: `bodyText` is overwritten by each text/plain part. */
  method DecodeBody(body: MimeBody) returns (d: Decoded)
    ensures d == Decode(body)
  {
    if body.HeaderFailure? {
      return DecodeFailed(ReaderFailed);
    }
    var parts := body.parts;
    var bodyText := "";
    var i := 0;
    while i < |parts|
      invariant 0 <= i <= |parts|
      invariant Scan(parts[i..], body.end, bodyText) == Decode(body)
    {
      var part := parts[i];
      if part.mediaType.Malformed? {
        return DecodeFailed(MediaTypeFailed);
      }
      if PlainText <= part.mediaType.value {
        if part.content.ReadFailure? {
          return DecodeFailed(ReadFailed);
        }
        bodyText := part.content.text;
      }
      assert parts[i..][1..] == parts[i + 1..];
      i := i + 1;
    }
    if body.end == IterationFailure {
      return DecodeFailed(NextPartFailed);
    }
    return Decoded(bodyText);
  }

  /** Index of the last text/plain part, found from the back; a reference definition that
      does not follow the loop. */
  function LastPlain(parts: seq<Part>): (r: Option<nat>)
    ensures r.Some? ==> r.value < |parts| && IsPlainText(parts[r.value])
    ensures r.Some? ==> forall j :: r.value < j < |parts| ==> !IsPlainText(parts[j])
    ensures r.None? ==> forall j :: 0 <= j < |parts| ==> !IsPlainText(parts[j])
    decreases |parts|
  {
    if parts == [] then None
    else if IsPlainText(parts[|parts| - 1]) then Some(|parts| - 1)
    else LastPlain(parts[..|parts| - 1])
  }

  /** The text of the last text/plain part, or `dflt` when there is none. */
  function LastPlainText(parts: seq<Part>, dflt: string): string
  {
    match LastPlain(parts)
    case None => dflt
    case Some(i) => if parts[i].content.Content? then parts[i].content.text else dflt
  }

  /** No part breaks and the iterator ends cleanly. */
  ghost predicate Decodable(parts: seq<Part>, end: PartsEnd)
  {
    end == Eof && forall i :: 0 <= i < |parts| ==> !Breaks(parts[i])
  }

  /** The last text/plain part is the one the reference definition finds. */
  lemma LastPlainIsUnique(parts: seq<Part>, i: nat)
    requires i < |parts| && IsPlainText(parts[i])
    requires forall j :: i < j < |parts| ==> !IsPlainText(parts[j])
    ensures LastPlain(parts) == Some(i)
  {
  }

  /** Last writer wins: when nothing fails, the walk yields the text of the last text/plain
      part (earlier ones are overwritten, not joined), or what it started with if there is none. */
  lemma {:induction false} ScanKeepsLastPlain(parts: seq<Part>, end: PartsEnd, acc: string)
    requires Decodable(parts, end)
    ensures Scan(parts, end, acc) == Decoded(LastPlainText(parts, acc))
    decreases |parts|
  {
    if parts != [] {
      var tail := parts[1..];
      var acc' := if IsPlainText(parts[0]) then parts[0].content.text else acc;
      ScanKeepsLastPlain(tail, end, acc');
      match LastPlain(tail)
      case Some(j) =>
        LastPlainIsUnique(parts, j + 1);
      case None =>
        if IsPlainText(parts[0]) {
          LastPlainIsUnique(parts, 0);
        }
    }
  }

  /** The first part that breaks decides the failure; no later part is looked at. */
  lemma {:induction false} ScanStopsAtFirstBreak(parts: seq<Part>, end: PartsEnd, acc: string, k: nat)
    requires k < |parts| && Breaks(parts[k])
    requires forall j :: 0 <= j < k ==> !Breaks(parts[j])
    ensures Scan(parts, end, acc) == DecodeFailed(PartFailure(parts[k]))
    decreases k
  {
    if k > 0 {
      ScanStopsAtFirstBreak(parts[1..], end,
        if IsPlainText(parts[0]) then parts[0].content.text else acc, k - 1);
    }
  }

  /** A failing iterator ends the walk with a failure even after every part was read. */
  lemma {:induction false} ScanFailsAtIterationError(parts: seq<Part>, acc: string)
    requires forall j :: 0 <= j < |parts| ==> !Breaks(parts[j])
    ensures Scan(parts, IterationFailure, acc) == DecodeFailed(NextPartFailed)
    decreases |parts|
  {
    if parts != [] {
      ScanFailsAtIterationError(parts[1..], if IsPlainText(parts[0]) then parts[0].content.text else acc);
    }
  }

  /** A body with exactly one readable text/plain part yields that part's content unchanged. */
  lemma SinglePlainPart(before: seq<Part>, plain: Part, after: seq<Part>)
    requires IsPlainText(plain) && plain.content.Content?
    requires forall j :: 0 <= j < |before| ==> !Breaks(before[j]) && !IsPlainText(before[j])
    requires forall j :: 0 <= j < |after| ==> !Breaks(after[j]) && !IsPlainText(after[j])
    ensures Decode(Parts(before + [plain] + after, Eof)) == Decoded(plain.content.text)
  {
    var parts := before + [plain] + after;
    ScanKeepsLastPlain(parts, Eof, "");
    assert IsPlainText(parts[|before|]);
    LastPlainIsUnique(parts, |before|);
  }

  /** A later readable text/plain part replaces whatever the earlier parts gave. */
  lemma LaterPlainPartWins(parts: seq<Part>, plain: Part)
    requires IsPlainText(plain) && plain.content.Content?
    requires forall j :: 0 <= j < |parts| ==> !Breaks(parts[j])
    ensures Decode(Parts(parts + [plain], Eof)) == Decoded(plain.content.text)
  {
    ScanKeepsLastPlain(parts + [plain], Eof, "");
  }

  /** Without any text/plain part the prompt is empty (and is still sent). */
  lemma NoPlainPartGivesEmptyText(parts: seq<Part>)
    requires forall j :: 0 <= j < |parts| ==> !Breaks(parts[j]) && !IsPlainText(parts[j])
    ensures Decode(Parts(parts, Eof)) == Decoded("")
  {
    ScanKeepsLastPlain(parts, Eof, "");
  }
}
