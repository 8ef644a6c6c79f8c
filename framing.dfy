/**
 * The bytes sendAutoReply (main.go) hands to the mail transfer agent, and a reader
 * for the layout of section 2.1 of RFC 5322 (header fields, an empty line, the
 * body, CRLF line endings) against which those bytes are checked.
 */
module Framing {
  import opened Wrappers
  import opened Text

  /** The reply subject is fixed; it does not depend on the subject of the message answered. */
  const ReplySubject: string := "Re:gpt-go-email"

  /** The reply message: a `To:` field (section 3.6.3 of RFC 5322), a `Subject:` field
      (section 3.6.5), an empty line, then the response followed by CRLF. */
  function ReplyMessage(to: string, response: string): string
  {
    "To: " + to + "\r\n" + "Subject: " + ReplySubject + "\r\n" + "\r\n" + response + "\r\n"
  }

  /** A header field: the name before the first colon, and the unstructured field body after it. */
  datatype Field = Field(name: string, body: string)

  /** A message split into its header fields and its body. */
  datatype Message = Message(fields: seq<Field>, body: string)

  /** Writes a message out in the layout of section 2.1 of RFC 5322. */
  function Render(m: Message): string
    decreases |m.fields|
  {
    if m.fields == [] then "\r\n" + m.body
    else m.fields[0].name + ":" + m.fields[0].body + "\r\n" + Render(Message(m.fields[1..], m.body))
  }

  /** Rendering a message with one more field in front writes that field's line first. */
  lemma RenderField(f: Field, m: Message)
    ensures Render(Message([f] + m.fields, m.body)) == f.name + ":" + f.body + "\r\n" + Render(m)
  {
    assert ([f] + m.fields)[1..] == m.fields;
  }

  /** A string is its first line, the CRLF that ends it, and the rest. */
  lemma SplitAtLineEnd(s: string, i: nat)
    requires CrlfAt(s, i)
    ensures s == s[..i] + "\r\n" + s[i + 2..]
  {
  }

  /** Splits one header line at its first colon; a line without a field name is not a field. */
  function ParseField(line: string): (r: Option<Field>)
    ensures r.Some? ==> line == r.value.name + ":" + r.value.body
    ensures r.Some? ==> r.value.name != [] && ':' !in r.value.name
  {
    match IndexOf(line, ':')
    case None => None
    case Some(i) =>
      if i == 0 then None
      else
        assert line == line[..i] + ":" + line[i + 1..];
        Some(Field(line[..i], line[i + 1..]))
  }

  /** Reads header lines up to the first empty line; what follows it is the body. */
  function ParseMessage(s: string): (r: Option<Message>)
    ensures r.Some? ==> Render(r.value) == s
    decreases |s|
  {
    match FindCrlf(s)
    case None => None
    case Some(i) =>
      if i == 0 then Some(Message([], s[2..]))
      else match ParseField(s[..i])
        case None => None
        case Some(f) =>
          match ParseMessage(s[i + 2..])
          case None => None
          case Some(m) =>
            RenderField(f, m);
            SplitAtLineEnd(s, i);
            Some(Message([f] + m.fields, m.body))
  }

  /** A line made of a field name and a field body reads back as that field. */
  lemma ParseFieldLine(name: string, body: string)
    requires name != [] && ':' !in name
    ensures ParseField(name + ":" + body) == Some(Field(name, body))
  {
    FirstAfterPrefix(name, ':', body);
    var line := name + ":" + body;
    assert line[..|name|] == name && line[|name| + 1..] == body;
  }

  /** A header line free of carriage returns is read as one field, and reading goes on
      right after its CRLF. */
  lemma ParseHeaderLine(name: string, body: string, rest: string)
    requires name != [] && ':' !in name && '\r' !in name && '\r' !in body
    ensures ParseMessage(name + ":" + body + "\r\n" + rest)
         == match ParseMessage(rest)
            case None => None
            case Some(m) => Some(Message([Field(name, body)] + m.fields, m.body))
  {
    var line := name + ":" + body;
    assert line == name + [':'] + body;
    var s := line + "\r\n" + rest;
    FirstLineEnds(line, rest);
    assert s[..|line|] == line;
    assert s[|line| + 2..] == rest;
    ParseFieldLine(name, body);
  }

  /** An empty line ends the header section; everything after it is the body. */
  lemma ParseEmptyLine(body: string)
    ensures ParseMessage("\r\n" + body) == Some(Message([], body))
  {
    assert CrlfAt("\r\n" + body, 0);
    assert ("\r\n" + body)[2..] == body;
  }

  /** The reply regrouped as its To line, its Subject line and the empty line before the body. */
  lemma ReplyMessageLines(to: string, response: string)
    ensures ReplyMessage(to, response)
         == "To" + ":" + (" " + to) + "\r\n"
            + ("Subject" + ":" + (" " + ReplySubject) + "\r\n" + ("\r\n" + (response + "\r\n")))
  {
  }

  /** After the To line: the Subject line, the empty line and the body. */
  lemma SubjectAndBodyParse(body: string)
    ensures ParseMessage("Subject" + ":" + (" " + ReplySubject) + "\r\n" + ("\r\n" + body))
         == Some(Message([Field("Subject", " " + ReplySubject)], body))
  {
    ParseEmptyLine(body);
    var subject := " " + ReplySubject;
    assert ':' !in "Subject" && '\r' !in "Subject" && '\r' !in subject;
    ParseHeaderLine("Subject", subject, "\r\n" + body);
    assert [Field("Subject", subject)] + [] == [Field("Subject", subject)];
  }

  /** The reply reads back as exactly two header fields, To (the recipient) and the fixed
      Subject, and a body that is the response byte for byte: whatever the response holds,
      it cannot add or alter a header field. */
  lemma ReplyMessageParses(to: string, response: string)
    requires '\r' !in to
    ensures ParseMessage(ReplyMessage(to, response))
         == Some(Message([Field("To", " " + to), Field("Subject", " " + ReplySubject)], response + "\r\n"))
  {
    var rest := "Subject" + ":" + (" " + ReplySubject) + "\r\n" + ("\r\n" + (response + "\r\n"));
    SubjectAndBodyParse(response + "\r\n");
    assert ':' !in "To" && '\r' !in "To";
    ParseHeaderLine("To", " " + to, rest);
    ReplyMessageLines(to, response);
    var fields := [Field("To", " " + to)] + [Field("Subject", " " + ReplySubject)];
    assert fields == [Field("To", " " + to), Field("Subject", " " + ReplySubject)];
  }
}
