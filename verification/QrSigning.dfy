/**
 * The two QR formats of a registration: a full token that carries the signed
 * payload, and the compact Q2 token that carries only a signed token id.
 */
module QrSigning {
  import opened Wrappers
  import opened Text
  import opened Base64

  datatype Payload = Payload(tokenId: string, eventId: string, registrationId: string, registrationPublicId: string,
                             attendeeTypeId: string, attendeeTypeCode: string, issuedAt: string, validFrom: string,
                             validUntil: string, nonce: string)

  /** The members of a parsed JSON object that are strings. */
  type Members = map<string, string>

  /** HMAC-SHA-256 under the signing secret, and JSON over UTF-8; parsing yields None for text that is no object. */
  datatype Crypto = Crypto(mac: string -> seq<Byte>, render: Payload -> seq<Byte>, parse: seq<Byte> -> Option<Members>)

  function MembersOf(p: Payload): Members {
    map["tokenId" := p.tokenId, "eventId" := p.eventId, "registrationId" := p.registrationId,
        "registrationPublicId" := p.registrationPublicId, "attendeeTypeId" := p.attendeeTypeId,
        "attendeeTypeCode" := p.attendeeTypeCode, "issuedAt" := p.issuedAt, "validFrom" := p.validFrom,
        "validUntil" := p.validUntil, "nonce" := p.nonce]
  }

  /** A MAC has 32 bytes; JSON text starts with a brace and parses back to what was printed. */
  ghost predicate Sound(c: Crypto) {
    && (forall text :: |c.mac(text)| == 32)
    && (forall p :: c.parse(c.render(p)) == Some(MembersOf(p)) && c.render(p) != [] && c.render(p)[0] == 0x7b)
  }

  // ----- Creating ----------------------------------------------------------

  datatype TokenError = BadToken

  function SignPayload(c: Crypto, encoded: string): string { EncodeUrl(c.mac(encoded)) }

  function SignTokenId(c: Crypto, tokenId: string): string {
    var mac := c.mac("Q2." + tokenId);
    EncodeUrl(if |mac| < 16 then mac else mac[..16])
  }

  function CreateSigned(c: Crypto, p: Payload): string {
    var encoded := EncodeUrl(c.render(p));
    encoded + "." + SignPayload(c, encoded)
  }

  function CreateCompact(c: Crypto, tokenId: string): Result<string, TokenError> {
    var id := Trim(tokenId);
    if id == "" then Err(BadToken) else Ok("Q2." + id + "." + SignTokenId(c, id))
  }

  // ----- Verifying ---------------------------------------------------------

  function Split(s: string): (parts: seq<string>)
    ensures |parts| >= 1
  {
    if s == "" then [""]
    else
      var rest := Split(s[1..]);
      if s[0] == '.' then [""] + rest else [[s[0]] + rest[0]] + rest[1..]
  }

  predicate Filled(m: Members, key: string) { key in m && Trim(m[key]) != "" }

  const REQUIRED := ["tokenId", "eventId", "registrationId", "registrationPublicId", "attendeeTypeId",
                     "attendeeTypeCode", "issuedAt", "validFrom", "validUntil", "nonce"]

  predicate Complete(m: Members) { forall i :: 0 <= i < |REQUIRED| ==> Filled(m, REQUIRED[i]) }

  function FromMembers(m: Members): Payload
    requires Complete(m)
  {
    assert forall i :: 0 <= i < |REQUIRED| ==> Filled(m, REQUIRED[i]);
    assert Filled(m, REQUIRED[0]) && Filled(m, REQUIRED[1]) && Filled(m, REQUIRED[2]) && Filled(m, REQUIRED[3])
           && Filled(m, REQUIRED[4]);
    assert Filled(m, REQUIRED[5]) && Filled(m, REQUIRED[6]) && Filled(m, REQUIRED[7]) && Filled(m, REQUIRED[8])
           && Filled(m, REQUIRED[9]);
    Payload(m["tokenId"], m["eventId"], m["registrationId"], m["registrationPublicId"], m["attendeeTypeId"],
            m["attendeeTypeCode"], m["issuedAt"], m["validFrom"], m["validUntil"], m["nonce"])
  }

  /** A payload under its own signature, as both the full and the legacy compact format have it. */
  function Open(c: Crypto, token: string): Result<Members, TokenError> {
    var parts := Split(token);
    if |parts| != 2 || parts[0] == "" || parts[1] == "" || parts[1] != SignPayload(c, parts[0]) then Err(BadToken)
    else
      var m := c.parse(Decode64(parts[0]));
      if m.None? then Err(BadToken) else Ok(m.value)
  }

  function VerifySigned(c: Crypto, token: string): Result<Payload, TokenError> {
    var m := Open(c, Trim(token));
    if m.Ok? && Complete(m.value) then Ok(FromMembers(m.value)) else Err(BadToken)
  }

  predicate IsIdChar(ch: char) { 'a' <= ch <= 'z' || 'A' <= ch <= 'Z' || '0' <= ch <= '9' || ch == '_' || ch == '-' }

  predicate AllIdChars(s: string) { s != "" && forall i :: 0 <= i < |s| ==> IsIdChar(s[i]) }

  function VerifyCompactV2(c: Crypto, token: string): Result<string, TokenError> {
    var parts := Split(token);
    if |parts| == 3 && parts[0] == "Q2" && AllIdChars(parts[1]) && |parts[1]| <= 128 && AllIdChars(parts[2])
       && parts[2] == SignTokenId(c, parts[1])
    then Ok(parts[1])
    else Err(BadToken)
  }

  function VerifyLegacy(c: Crypto, token: string): Result<string, TokenError> {
    var m := Open(c, token);
    if m.Ok? && Filled(m.value, "tokenId") then Ok(Trim(m.value["tokenId"])) else Err(BadToken)
  }

  function VerifyCompact(c: Crypto, token: string): Result<string, TokenError> {
    var t := Trim(token);
    if "Q2." <= t then VerifyCompactV2(c, t) else VerifyLegacy(c, t)
  }

  // ----- Splitting what was joined -----------------------------------------

  predicate Dotless(s: string) { forall i :: 0 <= i < |s| ==> s[i] != '.' }

  lemma {:induction false} SplitDotless(s: string)
    requires Dotless(s)
    ensures Split(s) == [s]
  {
    if s != "" {
      SplitDotless(s[1..]);
      assert s == [s[0]] + s[1..];
    }
  }

  lemma {:induction false} SplitJoined(a: string, rest: string)
    requires Dotless(a)
    ensures Split(a + "." + rest) == [a] + Split(rest)
  {
    if a == "" { assert (a + "." + rest)[1..] == rest; }
    else {
      assert (a + "." + rest)[1..] == a[1..] + "." + rest;
      SplitJoined(a[1..], rest);
      assert a == [a[0]] + a[1..] && a[0] != '.';
    }
  }

  /** Text with a dot in it has at least two parts. */
  lemma {:induction false} SplitAtLeast(a: string, rest: string)
    ensures |Split(a + "." + rest)| >= 1 + |Split(rest)|
  {
    if a == "" { assert (a + "." + rest)[1..] == rest; }
    else {
      assert (a + "." + rest)[1..] == a[1..] + "." + rest;
      SplitAtLeast(a[1..], rest);
    }
  }

  lemma {:induction false} PartsAreDotless(s: string)
    ensures forall i :: 0 <= i < |Split(s)| ==> Dotless(Split(s)[i])
  {
    if s != "" { PartsAreDotless(s[1..]); }
  }

  lemma EncodedIsPlain(bytes: seq<Byte>)
    ensures Dotless(EncodeUrl(bytes)) && (bytes != [] ==> AllIdChars(EncodeUrl(bytes)))
  {
    EncodingIsUrlSafe(bytes);
    EncodedChars(bytes);
  }

  lemma IdCharsAreNoSpaces()
    ensures forall ch :: IsIdChar(ch) ==> !IsSpace(ch) && ch != '.'
  {
  }

  // ----- Full tokens -------------------------------------------------------

  lemma CreatedOpens(c: Crypto, p: Payload)
    requires Sound(c)
    ensures var t := CreateSigned(c, p); Trim(t) == t && Open(c, t) == Ok(MembersOf(p)) && !("Q2." <= t)
  {
    var encoded := EncodeUrl(c.render(p));
    var signature := SignPayload(c, encoded);
    assert |c.mac(encoded)| == 32;
    assert c.parse(c.render(p)) == Some(MembersOf(p));
    EncodedIsPlain(c.render(p));
    EncodedIsPlain(c.mac(encoded));
    SplitJoined(encoded, signature);
    SplitDotless(signature);
    UnpaddedDecodes(c.render(p));
    IdCharsAreNoSpaces();
    var t := CreateSigned(c, p);
    assert t[0] == encoded[0] && t[|t| - 1] == signature[|signature| - 1];
    TrimIsIdentity(t);
    FirstCharacter(c.render(p));
  }

  /** JSON text encodes to text that starts with an e, so no full token looks like a compact one. */
  lemma FirstCharacter(bytes: seq<Byte>)
    requires bytes != [] && bytes[0] == 0x7b
    ensures EncodeUrl(bytes) != "" && EncodeUrl(bytes)[0] == 'e'
  {
    EncodedChars(bytes);
    assert Encode64(bytes)[0] == Digit(30);
  }

  predicate Nonblank(p: Payload) { Complete(MembersOf(p)) }

  lemma MembersComeBack(p: Payload)
    requires Nonblank(p)
    ensures FromMembers(MembersOf(p)) == p
  {
  }

  /**
   * A full token verifies to exactly the payload it was made of, provided no
   * member is blank; otherwise it is refused.
   */
  lemma SignedRoundTrip(c: Crypto, p: Payload)
    requires Sound(c)
    ensures VerifySigned(c, CreateSigned(c, p)) == if Nonblank(p) then Ok(p) else Err(BadToken)
  {
    CreatedOpens(c, p);
    if Nonblank(p) { MembersComeBack(p); }
  }

  /** The compact verifier reads a full token too, by the format that came before Q2. */
  lemma CompactReadsFull(c: Crypto, p: Payload)
    requires Sound(c)
    ensures VerifyCompact(c, CreateSigned(c, p)) == if Trim(p.tokenId) != "" then Ok(Trim(p.tokenId)) else Err(BadToken)
  {
    CreatedOpens(c, p);
  }

  // ----- Compact tokens ----------------------------------------------------

  predicate IsTokenId(id: string) { AllIdChars(id) && |id| <= 128 }

  lemma SignatureIsPlain(c: Crypto, id: string)
    requires Sound(c)
    ensures AllIdChars(SignTokenId(c, id)) && Dotless(SignTokenId(c, id))
  {
    assert |c.mac("Q2." + id)| == 32;
    EncodedIsPlain(c.mac("Q2." + id)[..16]);
  }

  lemma CompactShape(c: Crypto, tokenId: string)
    requires Sound(c) && Trim(tokenId) != ""
    ensures var id, t := Trim(tokenId), CreateCompact(c, tokenId).value;
            && Trim(t) == t && "Q2." <= t
            && Split(t) == ["Q2"] + Split(id + "." + SignTokenId(c, id)) && |Split(t)| >= 3
            && (Dotless(id) ==> Split(t) == ["Q2", id, SignTokenId(c, id)])
            && (|Split(t)| == 3 ==> Dotless(id))
  {
    var id := Trim(tokenId);
    var signature := SignTokenId(c, id);
    var t := CreateCompact(c, tokenId).value;
    SignatureIsPlain(c, id);
    IdCharsAreNoSpaces();
    assert t == "Q2" + "." + (id + "." + signature);
    SplitJoined("Q2", id + "." + signature);
    SplitDotless(signature);
    SplitAtLeast(id, signature);
    assert t[0] == 'Q' && t[|t| - 1] == signature[|signature| - 1];
    TrimIsIdentity(t);
    if Dotless(id) { SplitJoined(id, signature); }
    else { DotSplits(id, signature); }
  }

  lemma DotSplits(id: string, signature: string)
    requires !Dotless(id)
    ensures |Split(id + "." + signature)| >= 3
  {
    var i :| 0 <= i < |id| && id[i] == '.';
    assert id + "." + signature == id[..i] + "." + (id[i + 1..] + "." + signature);
    SplitAtLeast(id[..i], id[i + 1..] + "." + signature);
    SplitAtLeast(id[i + 1..], signature);
  }

  /** A compact token verifies to its own id exactly when that is 1 to 128 characters of the token alphabet. */
  lemma CompactRoundTrip(c: Crypto, tokenId: string)
    requires Sound(c) && Trim(tokenId) != ""
    ensures var id := Trim(tokenId);
            VerifyCompact(c, CreateCompact(c, tokenId).value) == if IsTokenId(id) then Ok(id) else Err(BadToken)
  {
    var id := Trim(tokenId);
    CompactShape(c, tokenId);
    SignatureIsPlain(c, id);
    IdCharsAreNoSpaces();
    assert IsTokenId(id) ==> Dotless(id);
  }

  /** No compact token passes for a full one. */
  lemma FullRefusesCompact(c: Crypto, tokenId: string)
    requires Sound(c) && Trim(tokenId) != ""
    ensures VerifySigned(c, CreateCompact(c, tokenId).value) == Err(BadToken)
  {
    CompactShape(c, tokenId);
  }

  /** What either verifier accepts carries the signature of what it returns. */
  lemma AcceptedIsSigned(c: Crypto, token: string)
    ensures VerifySigned(c, token).Ok? ==>
              exists encoded :: Trim(token) == encoded + "." + SignPayload(c, encoded) && Dotless(encoded)
                && c.parse(Decode64(encoded)).Some? && Complete(c.parse(Decode64(encoded)).value)
                && VerifySigned(c, token).value == FromMembers(c.parse(Decode64(encoded)).value)
    ensures VerifyCompact(c, token).Ok? && "Q2." <= Trim(token) ==>
              Trim(token) == "Q2." + VerifyCompact(c, token).value + "." + SignTokenId(c, VerifyCompact(c, token).value)
  {
    var t := Trim(token);
    PartsAreDotless(t);
    JoinParts(t);
    if VerifySigned(c, token).Ok? {
      var encoded := Split(t)[0];
      assert t == encoded + "." + SignPayload(c, encoded);
    }
  }

  lemma {:induction false} JoinParts(s: string)
    ensures |Split(s)| == 1 ==> s == Split(s)[0]
    ensures |Split(s)| == 2 ==> s == Split(s)[0] + "." + Split(s)[1]
    ensures |Split(s)| == 3 ==> s == Split(s)[0] + "." + Split(s)[1] + "." + Split(s)[2]
  {
    if s != "" {
      JoinParts(s[1..]);
      assert s == [s[0]] + s[1..];
    }
  }

  // ----- Issue and validate ------------------------------------------------

  datatype Status = Active | Revoked | Expired

  datatype StoredToken = StoredToken(payload: Payload, status: Status, validFrom: nat, validUntil: nat,
                                     eventId: string, registrationId: string, publicId: string,
                                     registrationActive: bool)

  type Table = map<string, StoredToken>

  datatype Reason = Valid | InvalidSignature | TokenNotFound | EventMismatch | TokenRevoked | TokenExpired |
      RegistrationInactive

  function Judge(row: StoredToken, now: nat): Reason {
    if row.status == Revoked then TokenRevoked
    else if row.status == Expired || now < row.validFrom || now > row.validUntil then TokenExpired
    else if !row.registrationActive then RegistrationInactive
    else Valid
  }

  function Validate(c: Crypto, table: Table, now: nat, token: string): Reason {
    var full := VerifySigned(c, token);
    if full.Ok? then
      var p := full.value;
      if p.tokenId !in table then TokenNotFound
      else
        var row := table[p.tokenId];
        if row.eventId != p.eventId || row.registrationId != p.registrationId || row.publicId != p.registrationPublicId
          then EventMismatch
        else Judge(row, now)
    else
      var compact := VerifyCompact(c, token);
      if compact.Err? then InvalidSignature
      else if compact.value !in table then TokenNotFound
      else Judge(table[compact.value], now)
  }

  /** A row as generate stores it: its payload is its own, no member is blank, and its id is of the token alphabet. */
  predicate Issued(tokenId: string, row: StoredToken) {
    && row.payload.tokenId == tokenId && row.payload.eventId == row.eventId
    && row.payload.registrationId == row.registrationId
    && row.payload.registrationPublicId == row.publicId && Nonblank(row.payload) && IsTokenId(tokenId)
  }

  predicate UsableNow(row: StoredToken, now: nat) {
    row.status == Active && row.validFrom <= now <= row.validUntil && row.registrationActive
  }

  /**
   * Both tokens of an issued row are answered alike, and VALID exactly while
   * the row is ACTIVE, the clock is in its window and the registration is
   * ACTIVE.
   */
  lemma BothTokensValidate(c: Crypto, table: Table, tokenId: string, now: nat)
    requires Sound(c) && tokenId in table && Issued(tokenId, table[tokenId])
    ensures var row := table[tokenId];
            var compact := CreateCompact(c, tokenId);
            && compact.Ok?
            && Validate(c, table, now, compact.value) == Validate(c, table, now, CreateSigned(c, row.payload)) ==
               Judge(row, now)
            && (Judge(row, now) == Valid <==> UsableNow(row, now))
  {
    var row := table[tokenId];
    IdCharsAreNoSpaces();
    TrimIsIdentity(tokenId);
    SignedRoundTrip(c, row.payload);
    CompactRoundTrip(c, tokenId);
    FullRefusesCompact(c, tokenId);
  }

  // ----- Every text and its answer -------------------------------------------

  /** The ten members a full token must have, none of them blank. */
  predicate Carries(m: Members, p: Payload) {
    && HasMember(m, "tokenId", p.tokenId) && HasMember(m, "eventId", p.eventId)
    && HasMember(m, "registrationId", p.registrationId) && HasMember(m, "registrationPublicId", p.registrationPublicId)
    && HasMember(m, "attendeeTypeId", p.attendeeTypeId) && HasMember(m, "attendeeTypeCode", p.attendeeTypeCode)
    && HasMember(m, "issuedAt", p.issuedAt) && HasMember(m, "validFrom", p.validFrom)
    && HasMember(m, "validUntil", p.validUntil) && HasMember(m, "nonce", p.nonce)
  }

  predicate HasMember(m: Members, key: string, text: string) { key in m && m[key] == text && !AllSpaces(text) }

  /** The payload's text in the URL-safe alphabet, a dot, and its MAC in that alphabet. */
  ghost predicate IsSealed(c: Crypto, text: string, m: Members) {
    exists encoded ::
      && text == encoded + "." + EncodeUrl(c.mac(encoded)) && encoded != "" && Dotless(encoded)
      && c.parse(Decode64(encoded)) == Some(m)
  }

  ghost predicate IsFullToken(c: Crypto, text: string, p: Payload) {
    exists m :: IsSealed(c, text, m) && Carries(m, p)
  }

  /** A compact token carries half a MAC of its prefix and id; of the older form, a full token, the id is read. */
  ghost predicate IsCompactToken(c: Crypto, text: string, id: string) {
    if "Q2." <= text then
      |c.mac("Q2." + id)| >= 16 && IsTokenId(id) && text == "Q2." + id + "." + EncodeUrl(c.mac("Q2." + id)[..16])
    else
      exists m :: IsSealed(c, text, m) && "tokenId" in m && id == Trim(m["tokenId"]) && id != ""
  }

  lemma OpenIffSealed(c: Crypto, text: string, m: Members)
    requires Sound(c)
    ensures Open(c, text) == Ok(m) <==> IsSealed(c, text, m)
  {
    JoinParts(text);
    PartsAreDotless(text);
    if Open(c, text) == Ok(m) {
      var encoded := Split(text)[0];
      assert text == encoded + "." + EncodeUrl(c.mac(encoded));
    }
    if IsSealed(c, text, m) {
      var encoded :| text == encoded + "." + EncodeUrl(c.mac(encoded)) && encoded != "" && Dotless(encoded)
                     && c.parse(Decode64(encoded)) == Some(m);
      SealedOpens(c, encoded, m);
    }
  }

  lemma SealedOpens(c: Crypto, encoded: string, m: Members)
    requires Sound(c) && encoded != "" && Dotless(encoded) && c.parse(Decode64(encoded)) == Some(m)
    ensures Open(c, encoded + "." + EncodeUrl(c.mac(encoded))) == Ok(m)
  {
    var signature := EncodeUrl(c.mac(encoded));
    assert |c.mac(encoded)| == 32;
    EncodedIsPlain(c.mac(encoded));
    SplitJoined(encoded, signature);
    SplitDotless(signature);
  }

  lemma CompleteIffCarries(m: Members, p: Payload)
    ensures Complete(m) && FromMembers(m) == p <==> Carries(m, p)
  {
    forall text ensures Trim(text) == "" <==> AllSpaces(text) { BlankIffAllSpaces(text); }
    if Carries(m, p) {
      forall i | 0 <= i < |REQUIRED| ensures Filled(m, REQUIRED[i]) { }
    }
    if Complete(m) {
      forall i | 0 <= i < |REQUIRED| ensures REQUIRED[i] in m && !AllSpaces(m[REQUIRED[i]]) {
        assert Filled(m, REQUIRED[i]);
      }
      MembersAreThere(m);
    }
  }

  lemma MembersAreThere(m: Members)
    requires Complete(m)
    ensures Carries(m, FromMembers(m))
  {
    forall i | 0 <= i < |REQUIRED| ensures HasMember(m, REQUIRED[i], m[REQUIRED[i]]) {
      assert Filled(m, REQUIRED[i]);
      BlankIffAllSpaces(m[REQUIRED[i]]);
    }
    assert HasMember(m, REQUIRED[0], m[REQUIRED[0]]) && HasMember(m, REQUIRED[1], m[REQUIRED[1]])
           && HasMember(m, REQUIRED[2], m[REQUIRED[2]]) && HasMember(m, REQUIRED[3], m[REQUIRED[3]])
           && HasMember(m, REQUIRED[4], m[REQUIRED[4]]);
    assert HasMember(m, REQUIRED[5], m[REQUIRED[5]]) && HasMember(m, REQUIRED[6], m[REQUIRED[6]])
           && HasMember(m, REQUIRED[7], m[REQUIRED[7]]) && HasMember(m, REQUIRED[8], m[REQUIRED[8]])
           && HasMember(m, REQUIRED[9], m[REQUIRED[9]]);
  }

  /** Of all texts the full verifier accepts exactly the full tokens, with the payload each carries. */
  lemma FullAcceptsIff(c: Crypto, token: string, p: Payload)
    requires Sound(c)
    ensures VerifySigned(c, token) == Ok(p) <==> IsFullToken(c, Trim(token), p)
  {
    var t := Trim(token);
    forall m ensures Open(c, t) == Ok(m) <==> IsSealed(c, t, m) { OpenIffSealed(c, t, m); }
    forall m ensures Complete(m) && FromMembers(m) == p <==> Carries(m, p) { CompleteIffCarries(m, p); }
  }

  lemma ShortIsAccepted(c: Crypto, id: string)
    requires Sound(c) && IsTokenId(id)
    ensures |c.mac("Q2." + id)| >= 16
    ensures VerifyCompactV2(c, "Q2." + id + "." + EncodeUrl(c.mac("Q2." + id)[..16])) == Ok(id)
  {
    IdCharsAreNoSpaces();
    SignatureIsPlain(c, id);
    var signature := SignTokenId(c, id);
    assert "Q2." + id + "." + signature == "Q2" + "." + (id + "." + signature);
    SplitJoined("Q2", id + "." + signature);
    SplitJoined(id, signature);
    SplitDotless(signature);
  }

  /** And the compact verifier exactly the compact tokens of both forms, with the id each carries. */
  lemma CompactAcceptsIff(c: Crypto, token: string, id: string)
    requires Sound(c)
    ensures VerifyCompact(c, token) == Ok(id) <==> IsCompactToken(c, Trim(token), id)
  {
    var t := Trim(token);
    assert |c.mac("Q2." + id)| == 32;
    if "Q2." <= t {
      JoinParts(t);
      if IsCompactToken(c, t, id) { ShortIsAccepted(c, id); }
    } else {
      forall m ensures Open(c, t) == Ok(m) <==> IsSealed(c, t, m) { OpenIffSealed(c, t, m); }
    }
  }

  /** What is answered about a stored row, by its status, its window and its registration. */
  predicate IsAnswer(row: StoredToken, now: nat, answer: Reason) {
    var current := row.status == Active && row.validFrom <= now <= row.validUntil;
    && (answer == TokenRevoked <==> row.status == Revoked)
    && (answer == TokenExpired <==> row.status != Revoked && !current)
    && (answer == RegistrationInactive <==> current && !row.registrationActive)
    && (answer == Valid <==> current && row.registrationActive)
  }

  predicate SameHolder(row: StoredToken, p: Payload) {
    row.eventId == p.eventId && row.registrationId == p.registrationId && row.publicId == p.registrationPublicId
  }

  /**
   * The answer to every text: a full token must name a row of its own event
   * and registration; a compact one only a row; the row then decides. Text
   * that is neither has no valid signature.
   */
  lemma EveryTextIsAnswered(c: Crypto, table: Table, now: nat, token: string)
    requires Sound(c)
    ensures var text, answer := Trim(token), Validate(c, table, now, token);
            && (forall p: Payload :: IsFullToken(c, text, p) ==>
                  if p.tokenId !in table then answer == TokenNotFound
                  else if !SameHolder(table[p.tokenId], p) then answer == EventMismatch
                  else IsAnswer(table[p.tokenId], now, answer))
            && (forall id: string :: IsCompactToken(c, text, id) && (forall p: Payload :: !IsFullToken(c, text, p)) ==>
                  if id !in table then answer == TokenNotFound else IsAnswer(table[id], now, answer))
            && (answer == InvalidSignature <==>
                  (forall p: Payload :: !IsFullToken(c, text, p))
                  && forall id: string :: !IsCompactToken(c, text, id))
  {
    forall p: Payload ensures VerifySigned(c, token) == Ok(p) <==> IsFullToken(c, Trim(token), p) {
      FullAcceptsIff(c, token, p);
    }
    forall id: string ensures VerifyCompact(c, token) == Ok(id) <==> IsCompactToken(c, Trim(token), id) {
      CompactAcceptsIff(c, token, id);
    }
    forall id: string | id in table ensures IsAnswer(table[id], now, Judge(table[id], now)) { }
  }
}
