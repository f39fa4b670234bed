/**
 * The cursor of a snapshot page as opaque text: JSON, then the URL-safe
 * alphabet of section 5 of RFC 4648 without padding.
 */
module CursorCodec {
  import opened Wrappers
  import opened Text
  import opened Base64

  // ----- The cursor ------------------------------------------------------

  datatype Cursor = Cursor(version: int, eventId: string, snapshotAsOf: string, createdAt: string, id: string,
                           changeCursor: Option<string>)

  /** A member of parsed JSON: absent, a string, or another value with the text a regular expression sees. */
  datatype Member = Absent | StringMember(text: string) | NotText(shown: string)

  datatype Parsed = Parsed(version: Option<int>, eventId: Member, snapshotAsOf: Member, createdAt: Member, id: Member,
                           changeCursor: Member)

  /** JSON printing with UTF-8 encoding, and the way back; parsing fails on None. */
  datatype Json = Json(render: Cursor -> seq<Byte>, parse: seq<Byte> -> Option<Parsed>)

  function Members(c: Cursor): Parsed {
    Parsed(Some(c.version), StringMember(c.eventId), StringMember(c.snapshotAsOf), StringMember(c.createdAt),
           StringMember(c.id),
           if c.changeCursor.Some? then StringMember(c.changeCursor.value) else Absent)
  }

  ghost predicate RoundTrips(json: Json) { forall c :: json.parse(json.render(c)) == Some(Members(c)) }

  predicate AllDigits(s: string) { s != "" && forall i :: 0 <= i < |s| ==> '0' <= s[i] <= '9' }

  datatype DecodeError = InvalidCursor

  /** A change cursor that is not text but looks like digits passes the pattern; it is kept as the text it shows. */
  function Check(p: Parsed): Result<Cursor, DecodeError> {
    if p.version.None? || p.version.value !in {2, 3}
       || !p.eventId.StringMember? || !p.snapshotAsOf.StringMember? || !p.createdAt.StringMember? || !p.id.StringMember?
       || Trim(p.eventId.text) == "" || Trim(p.id.text) == ""
       || (p.changeCursor.StringMember? && !AllDigits(p.changeCursor.text))
       || (p.changeCursor.NotText? && !AllDigits(p.changeCursor.shown))
    then Err(InvalidCursor)
    else
      Ok(Cursor(p.version.value, p.eventId.text, p.snapshotAsOf.text, p.createdAt.text, p.id.text,
                match p.changeCursor case Absent => None case StringMember(t) => Some(t) case NotText(t) => Some(t)))
  }

  function EncodeCursor(json: Json, c: Cursor): string { EncodeUrl(json.render(c)) }

  function DecodeCursor(json: Json, encoded: string): Result<Cursor, DecodeError> {
    var parsed := json.parse(DecodeUrl(encoded));
    if parsed.None? then Err(InvalidCursor) else Check(parsed.value)
  }

  predicate IsCursor(c: Cursor) {
    && c.version in {2, 3} && Trim(c.eventId) != "" && Trim(c.id) != ""
    && (c.changeCursor.Some? ==> AllDigits(c.changeCursor.value))
  }

  /** Decoding gives back exactly the cursor that was encoded when it is well formed, and refuses it when it is not. */
  lemma CursorRoundTrip(json: Json, c: Cursor)
    requires RoundTrips(json)
    ensures DecodeCursor(json, EncodeCursor(json, c)) == if IsCursor(c) then Ok(c) else Err(InvalidCursor)
  {
    DecodeInvertsEncode(json.render(c));
    assert json.parse(json.render(c)) == Some(Members(c));
  }

  /** Whatever text a client sends, what is accepted is a well-formed cursor. */
  lemma AcceptedIsCursor(json: Json, encoded: string)
    requires DecodeCursor(json, encoded).Ok?
    ensures IsCursor(DecodeCursor(json, encoded).value)
    ensures DecodeCursor(json, Trim(encoded)) == DecodeCursor(json, encoded)
  {
    TrimIsIdempotent(encoded);
  }

  /** The members of the parsed text are those of the cursor; a change cursor may be any value that shows its digits. */
  predicate Shows(p: Parsed, c: Cursor) {
    && p.version == Some(c.version)
    && p.eventId == StringMember(c.eventId) && p.snapshotAsOf == StringMember(c.snapshotAsOf)
    && p.createdAt == StringMember(c.createdAt) && p.id == StringMember(c.id)
    && match c.changeCursor
       case None => p.changeCursor == Absent
       case Some(digits) => p.changeCursor == StringMember(digits) || p.changeCursor == NotText(digits)
  }

  predicate Complete(c: Cursor) {
    && (c.version == 2 || c.version == 3) && !AllSpaces(c.eventId) && !AllSpaces(c.id)
    && (c.changeCursor.Some? ==> AllDigits(c.changeCursor.value))
  }

  /** Of all texts exactly those that show a complete cursor are accepted, as that cursor. */
  lemma AcceptedIffShown(json: Json, encoded: string, c: Cursor)
    ensures DecodeCursor(json, encoded) == Ok(c) <==>
            var p := json.parse(DecodeUrl(encoded)); p.Some? && Shows(p.value, c) && Complete(c)
  {
    var parsed := json.parse(DecodeUrl(encoded));
    if parsed.Some? {
      var p := parsed.value;
      if p.eventId.StringMember? { BlankIffAllSpaces(p.eventId.text); }
      if p.id.StringMember? { BlankIffAllSpaces(p.id.text); }
    }
  }

  /** Two cursors with one text are one cursor. */
  lemma CursorTextIsUnique(json: Json, c: Cursor, d: Cursor)
    requires RoundTrips(json) && EncodeCursor(json, c) == EncodeCursor(json, d)
    ensures c == d
  {
    DecodeInvertsEncode(json.render(c));
    DecodeInvertsEncode(json.render(d));
    assert json.parse(json.render(c)) == Some(Members(c));
    assert json.parse(json.render(d)) == Some(Members(d));
  }
}
