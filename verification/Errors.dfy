/** The FATAL ErrorResponse the gateway sends on its own behalf before it closes a connection. */
module Errors {
  import opened Bytes
  import opened Protocol
  import opened Framing

  const MSG_ERROR_RESPONSE: byte := 69 // 'E'

  datatype Field = Field(code: byte, value: Str)

  function FieldBytes(fields: seq<Field>): Str {
    if fields == [] then [] else [fields[0].code] + (fields[0].value + [0] + FieldBytes(fields[1..]))
  }

  /** Severity twice, the SQLSTATE, the message and, unless empty, the detail. */
  function ErrorFields(sqlState: Str, message: Str, detail: Str): seq<Field> {
    [Field('S' as int, Ascii("FATAL")), Field('V' as int, Ascii("FATAL")), Field('C' as int, sqlState),
     Field('M' as int, message)] + if detail == [] then [] else [Field('D' as int, detail)]
  }

  function ErrorMessage(fields: seq<Field>): Message { Message(MSG_ERROR_RESPONSE, FieldBytes(fields) + [0]) }

  /** What a client makes of an ErrorResponse body: its fields up to the terminator. */
  function ReadFields(body: Str): Option<seq<Field>>
    decreases |body|
  {
    if body == [] then None
    else if body[0] == 0 then Some([])
    else match ReadCString(body[1..])
      case None => None
      case Some((value, rest)) =>
        match ReadFields(rest)
        case None => None
        case Some(more) => Some([Field(body[0], value)] + more)
  }

  /** The loop that appends the fields. */
  method EncodeErrorResponse(sqlState: Str, message: Str, detail: Str) returns (out: Str)
    requires Framing.Encodable(ErrorMessage(ErrorFields(sqlState, message, detail)))
    ensures out == EncodeMessage(ErrorMessage(ErrorFields(sqlState, message, detail)))
  {
    var fields := ErrorFields(sqlState, message, detail);
    var body: Str := [];
    for i := 0 to |fields|
      invariant body == FieldBytes(fields[..i])
    {
      FieldBytesSnoc(fields[..i], fields[i], fields[..i + 1]);
      body := body + ([fields[i].code] + (fields[i].value + [0]));
    }
    assert fields[..|fields|] == fields;
    out := EncodeMessage(Message(MSG_ERROR_RESPONSE, body + [0]));
  }

  lemma {:induction false} FieldBytesSnoc(fields: seq<Field>, f: Field, all: seq<Field>)
    requires all == fields + [f]
    ensures FieldBytes(all) == FieldBytes(fields) + ([f.code] + (f.value + [0]))
  {
    if fields == [] {
      assert all[1..] == [];
      assert f.value + [0] + [] == f.value + [0];
    } else {
      FieldBytesSnoc(fields[1..], f, all[1..]);
      var more, last := FieldBytes(fields[1..]), [f.code] + (f.value + [0]);
      Reassociate([fields[0].code], fields[0].value + [0], more, last);
    }
  }

  lemma SizeOfCons(f: Field, more: seq<Field>)
    ensures |FieldBytes([f] + more)| == 2 + |f.value| + |FieldBytes(more)|
  {
    assert ([f] + more)[1..] == more;
  }

  /** A reply whose texts have at most a million bytes fits into a message. */
  lemma ShortReplyFits(sqlState: Str, message: Str, detail: Str)
    requires |sqlState| == 5 && |message| + |detail| <= 1_000_000
    ensures Framing.Encodable(ErrorMessage(ErrorFields(sqlState, message, detail)))
  {
    var fields := ErrorFields(sqlState, message, detail);
    for i := |fields| downto 0
      invariant |FieldBytes(fields[i..])| <= 7 * (|fields| - i) + |message| + |detail|
      invariant i >= 4 ==> |FieldBytes(fields[i..])| <= 7 * (|fields| - i) + |detail|
    {
      assert fields[i..] == [fields[i]] + fields[i + 1..];
      SizeOfCons(fields[i], fields[i + 1..]);
    }
    assert fields[0..] == fields;
  }

  lemma Reassociate(a: Str, b: Str, c: Str, d: Str)
    ensures a + (b + (c + d)) == a + (b + c) + d
  {}

  /** A field a client can read back. */
  predicate Legible(f: Field) { f.code != 0 && NulFree(f.value) }

  lemma {:induction false} FieldsAreRead(fields: seq<Field>, body: Str)
    requires (forall i :: 0 <= i < |fields| ==> Legible(fields[i])) && body == FieldBytes(fields) + [0]
    ensures ReadFields(body) == Some(fields)
    decreases |fields|
  {
    if fields == [] {
      assert body == [0];
    } else {
      var rest := FieldBytes(fields[1..]) + [0];
      FieldsAreRead(fields[1..], rest);
      FieldsBehindFirst(fields, rest, body);
      FirstFieldIsRead(fields[0], fields[1..], rest, body);
      assert [fields[0]] + fields[1..] == fields;
    }
  }

  lemma FieldsBehindFirst(fields: seq<Field>, rest: Str, body: Str)
    requires fields != [] && body == FieldBytes(fields) + [0] && rest == FieldBytes(fields[1..]) + [0]
    ensures body == [fields[0].code] + (fields[0].value + [0] + rest)
  {
    Reassociate([fields[0].code], fields[0].value + [0], FieldBytes(fields[1..]), [0]);
  }

  lemma FirstFieldIsRead(f: Field, more: seq<Field>, rest: Str, body: Str)
    requires Legible(f) && ReadFields(rest) == Some(more) && body == [f.code] + (f.value + [0] + rest)
    ensures ReadFields(body) == Some([f] + more)
  {
    CStringAfter(f.value, rest);
    assert body[1..] == f.value + [0] + rest;
  }

  /** The one value the fields give for a code, or none. */
  predicate Tells(fields: seq<Field>, code: char, value: Option<Str>) {
    match value
    case None => forall f :: f in fields ==> f.code != code as int
    case Some(v) =>
      Field(code as int % 0x100, v) in fields && forall f :: f in fields && f.code == code as int ==> f.value == v
  }

  /** The reply as the client frames and reads it: FATAL, with the state, message and detail given. */
  lemma ErrorResponseIsRead(sqlState: Str, message: Str, detail: Str, tail: Str)
    requires NulFree(sqlState) && NulFree(message) && NulFree(detail)
    requires Framing.Encodable(ErrorMessage(ErrorFields(sqlState, message, detail)))
    ensures var fields := ErrorFields(sqlState, message, detail);
      && NextMessage(EncodeMessage(ErrorMessage(fields)) + tail) == (Ok(ErrorMessage(fields)), tail)
      && ReadFields(ErrorMessage(fields).body) == Some(fields)
      && Tells(fields, 'S', Some(Ascii("FATAL"))) && Tells(fields, 'V', Some(Ascii("FATAL")))
      && Tells(fields, 'C', Some(sqlState)) && Tells(fields, 'M', Some(message))
      && Tells(fields, 'D', if detail == [] then None else Some(detail))
  {
    var fields := ErrorFields(sqlState, message, detail);
    NextOfEncoding(ErrorMessage(fields), tail);
    FieldsAreRead(fields, ErrorMessage(fields).body);
    ReplyTells(Ascii("FATAL"), sqlState, message, detail, fields);
  }

  lemma ReplyTells(severity: Str, sqlState: Str, message: Str, detail: Str, fields: seq<Field>)
    requires var first := [Field('S' as int, severity), Field('V' as int, severity), Field('C' as int, sqlState),
                           Field('M' as int, message)];
      fields == if detail == [] then first else first + [Field('D' as int, detail)]
    ensures Tells(fields, 'S', Some(severity)) && Tells(fields, 'V', Some(severity))
    ensures Tells(fields, 'C', Some(sqlState)) && Tells(fields, 'M', Some(message))
    ensures Tells(fields, 'D', if detail == [] then None else Some(detail))
  {
    assert fields[0].code == 'S' as int && fields[1].code == 'V' as int;
    assert fields[2].code == 'C' as int && fields[3].code == 'M' as int;
    assert detail != [] ==> fields[4].code == 'D' as int;
  }
}
