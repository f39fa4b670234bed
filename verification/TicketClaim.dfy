/**
 * WhatsApp ticket requests: the first sender of a request token is bound to it.
 * The claim reads the row, updates it under a condition, and reads it again
 * when the update changed nothing. Each database access is one step, so any
 * number of claims and of token rotations interleave freely.
 */
module TicketClaim {
  import opened Wrappers

  type RegistrationId = nat
  type CallId = nat
  type Token = string

  // ----- Phone numbers -------------------------------------------------

  predicate IsDigit(c: char) { '0' <= c <= '9' }

  function DigitsOf(s: string): (digits: string)
    ensures forall i :: 0 <= i < |digits| ==> IsDigit(digits[i])
  {
    if s == "" then "" else (if IsDigit(s[0]) then [s[0]] else "") + DigitsOf(s[1..])
  }

  function Lower(c: char): char { if 'A' <= c <= 'Z' then c - 'A' + 'a' else c }

  function LowerCase(s: string): (lower: string)
    ensures |lower| == |s| && forall i :: 0 <= i < |s| ==> lower[i] == Lower(s[i])
  {
    if s == "" then "" else [Lower(s[0])] + LowerCase(s[1..])
  }

  predicate EndsWith(s: string, suffix: string) {
    |suffix| <= |s| && LowerCase(s)[|s| - |suffix|..] == suffix
  }

  const WHATSAPP_NET := "@s.whatsapp.net"
  const C_US := "@c.us"

  /** Drop a WhatsApp suffix of any case, then everything that is not a digit. */
  function NormalizePhone(value: string): string {
    DigitsOf(
      if EndsWith(value, WHATSAPP_NET) then value[..|value| - |WHATSAPP_NET|]
      else if EndsWith(value, C_US) then value[..|value| - |C_US|]
      else value)
  }

  lemma {:induction false} DigitsAreKept(s: string)
    requires forall i :: 0 <= i < |s| ==> IsDigit(s[i])
    ensures DigitsOf(s) == s
  {
    if s != "" { DigitsAreKept(s[1..]); }
  }

  predicate Digitless(s: string) { forall i :: 0 <= i < |s| ==> !IsDigit(s[i]) }

  lemma SuffixesAreDigitless()
    ensures Digitless(WHATSAPP_NET) && Digitless(C_US)
  {
  }

  /** Dropping a suffix drops no digit: normalizing a phone keeps its digits, in order, and nothing else. */
  lemma NormalizedIsDigits(value: string)
    ensures NormalizePhone(value) == DigitsOf(value)
  {
    SuffixesAreDigitless();
    if EndsWith(value, WHATSAPP_NET) { DigitlessSuffix(value, WHATSAPP_NET); }
    if EndsWith(value, C_US) { DigitlessSuffix(value, C_US); }
  }

  lemma DigitlessSuffix(value: string, suffix: string)
    requires EndsWith(value, suffix) && Digitless(suffix)
    ensures DigitsOf(value[..|value| - |suffix|]) == DigitsOf(value)
  {
    var front, back := value[..|value| - |suffix|], value[|value| - |suffix|..];
    assert value == front + back;
    forall i | 0 <= i < |back| ensures !IsDigit(back[i]) { SuffixCharacter(value, suffix, i); }
    DigitsConcat(front, back);
    NoDigits(back);
  }

  lemma SuffixCharacter(value: string, suffix: string, i: nat)
    requires EndsWith(value, suffix) && i < |suffix| && !IsDigit(suffix[i])
    ensures !IsDigit(value[|value| - |suffix| + i])
  {
    assert LowerCase(value)[|value| - |suffix|..][i] == suffix[i];
    assert Lower(value[|value| - |suffix| + i]) == suffix[i];
  }

  lemma {:induction false} DigitsConcat(a: string, b: string)
    ensures DigitsOf(a + b) == DigitsOf(a) + DigitsOf(b)
  {
    if a == "" { assert a + b == b; }
    else {
      assert (a + b)[1..] == a[1..] + b;
      DigitsConcat(a[1..], b);
    }
  }

  lemma {:induction false} NoDigits(s: string)
    requires forall i :: 0 <= i < |s| ==> !IsDigit(s[i])
    ensures DigitsOf(s) == ""
  {
    if s != "" { NoDigits(s[1..]); }
  }

  /** A stored sender compares equal to itself when it is normalized again. */
  lemma NormalizePhoneIsIdempotent(value: string)
    ensures NormalizePhone(NormalizePhone(value)) == NormalizePhone(value)
  {
    NormalizedIsDigits(value);
    NormalizedIsDigits(NormalizePhone(value));
    DigitsAreKept(DigitsOf(value));
  }

  // ----- State and steps -----------------------------------------------

  datatype Row = Row(token: Option<Token>, expiresAt: Option<nat>, phone: Option<string>)

  datatype Stage = Reading | Claiming | Rereading

  /** A claim in flight; `now` is the clock it read first. */
  datatype Claim = Claim(registration: RegistrationId, token: Token, sender: string, now: nat, stage: Stage)

  datatype Grant = Grant(token: Token, phone: string)

  /**
   * `bound` and `granted` record the past: the phone a claim wrote for a token,
   * and every true reply.
   */
  datatype System = System(clock: nat, rows: map<RegistrationId, Row>, calls: map<CallId, Claim>,
                           bound: map<Token, string>, granted: set<Grant>)

  datatype Step =
    | Tick(elapsed: nat)
    | Register(id: RegistrationId)
    | Rotate(registration: RegistrationId, newToken: Token, lifetime: nat)
    | Start(call: CallId, target: RegistrationId, token: Token, rawSender: string)
    | Read(call: CallId)
    | Update(call: CallId)
    | Reread(call: CallId)
    | Abandon(call: CallId)

  predicate Collides(rows: map<RegistrationId, Row>, registration: RegistrationId, token: Token) {
    exists r :: r in rows && r != registration && rows[r].token == Some(token)
  }

  /** A rotation that finds its registration and passes the unique index. */
  predicate Stores(sys: System, step: Step) {
    && step.Rotate? && step.registration in sys.rows
    && !Collides(sys.rows, step.registration, step.newToken)
  }

  predicate Live(row: Row, token: Token, now: nat) {
    row.token == Some(token) && row.expiresAt.Some? && row.expiresAt.value > now
  }

  function Reply(sys: System, call: CallId, granted: bool): System
    requires call in sys.calls
  {
    var c := sys.calls[call];
    sys.(calls := sys.calls - {call},
         granted := if granted then sys.granted + {Grant(c.token, c.sender)} else sys.granted)
  }

  /** The row after the winning update, and what it leaves on record. */
  function Bind(sys: System, call: CallId): System
    requires call in sys.calls && sys.calls[call].registration in sys.rows
  {
    var c := sys.calls[call];
    sys.(rows := sys.rows[c.registration := sys.rows[c.registration].(phone := Some(c.sender))],
         bound := sys.bound[c.token := c.sender])
  }

  function Next(sys: System, step: Step): System {
    match step
    case Tick(elapsed) => sys.(clock := sys.clock + elapsed)
    case Register(r) => if r in sys.rows then sys else sys.(rows := sys.rows[r := Row(None, None, None)])
    case Rotate(r, token, lifetime) =>
      if Stores(sys, step) then sys.(rows := sys.rows[r := Row(Some(token), Some(sys.clock + lifetime), None)])
      else sys
    case Start(call, r, token, rawSender) =>
      var sender := NormalizePhone(rawSender);
      if call in sys.calls || sender == "" then sys
      else sys.(calls := sys.calls[call := Claim(r, token, sender, sys.clock, Reading)])
    case Read(call) =>
      if call !in sys.calls || sys.calls[call].stage != Reading then sys
      else
        var c := sys.calls[call];
        if c.registration !in sys.rows || !Live(sys.rows[c.registration], c.token, c.now) then Reply(sys, call, false)
        else if sys.rows[c.registration].phone.Some?
        then Reply(sys, call, NormalizePhone(sys.rows[c.registration].phone.value) == c.sender)
        else sys.(calls := sys.calls[call := c.(stage := Claiming)])
    case Update(call) =>
      if call !in sys.calls || sys.calls[call].stage != Claiming then sys
      else
        var c := sys.calls[call];
        if c.registration in sys.rows && Live(sys.rows[c.registration], c.token, c.now)
          && sys.rows[c.registration].phone.None?
        then Reply(Bind(sys, call), call, true)
        else sys.(calls := sys.calls[call := c.(stage := Rereading)])
    case Reread(call) =>
      if call !in sys.calls || sys.calls[call].stage != Rereading then sys
      else
        var c := sys.calls[call];
        Reply(sys, call,
              && c.registration in sys.rows && Live(sys.rows[c.registration], c.token, sys.clock)
              && sys.rows[c.registration].phone.Some?
              && NormalizePhone(sys.rows[c.registration].phone.value) == c.sender)
    case Abandon(call) => sys.(calls := sys.calls - {call})
  }

  function Run(sys: System, steps: seq<Step>): System
    decreases |steps|
  {
    if steps == [] then sys else Run(Next(sys, steps[0]), steps[1..])
  }

  /** No rotation stores a token value again that a phone was bound to. */
  predicate FreshTokens(sys: System, steps: seq<Step>)
    decreases |steps|
  {
    steps != [] ==>
      && (Stores(sys, steps[0]) ==> steps[0].newToken !in sys.bound)
      && FreshTokens(Next(sys, steps[0]), steps[1..])
  }

  // ----- First sender wins ---------------------------------------------

  ghost predicate RowInv(sys: System, row: Row) {
    row.token.Some? ==>
      match row.phone
      case None => row.token.value !in sys.bound
      case Some(phone) =>
        && row.token.value in sys.bound && sys.bound[row.token.value] == phone
        && NormalizePhone(phone) == phone
  }

  ghost predicate Inv(sys: System) {
    && (forall r :: r in sys.rows ==> RowInv(sys, sys.rows[r]))
    && (forall r1, r2 :: r1 in sys.rows && r2 in sys.rows && r1 != r2 && sys.rows[r1].token.Some?
                         ==> sys.rows[r1].token != sys.rows[r2].token)
    && (forall call :: call in sys.calls ==> NormalizePhone(sys.calls[call].sender) == sys.calls[call].sender)
    && (forall token :: token in sys.bound ==> Grant(token, sys.bound[token]) in sys.granted)
    && (forall g :: g in sys.granted ==> g.token in sys.bound && sys.bound[g.token] == g.phone)
  }

  lemma ReplyKeepsInv(sys: System, call: CallId, granted: bool)
    requires Inv(sys) && call in sys.calls
    requires granted ==>
             sys.calls[call].token in sys.bound && sys.bound[sys.calls[call].token] == sys.calls[call].sender
    ensures Inv(Reply(sys, call, granted))
  {
    forall r | r in sys.rows ensures RowInv(Reply(sys, call, granted), sys.rows[r]) { assert RowInv(sys, sys.rows[r]); }
  }

  lemma StageKeepsInv(sys: System, call: CallId, stage: Stage)
    requires Inv(sys) && call in sys.calls
    ensures Inv(sys.(calls := sys.calls[call := sys.calls[call].(stage := stage)]))
  {
    var t := sys.(calls := sys.calls[call := sys.calls[call].(stage := stage)]);
    forall r | r in t.rows ensures RowInv(t, t.rows[r]) { assert RowInv(sys, sys.rows[r]); }
  }

  /** The winning update binds a token that no earlier claim had bound. */
  lemma BindKeepsInv(sys: System, call: CallId)
    requires Inv(sys) && call in sys.calls
    requires var c := sys.calls[call];
             c.registration in sys.rows && sys.rows[c.registration].token == Some(c.token)
               && sys.rows[c.registration].phone.None?
    ensures sys.calls[call].token !in sys.bound
    ensures Inv(Reply(Bind(sys, call), call, true))
  {
    assert RowInv(sys, sys.rows[sys.calls[call].registration]);
    var t := Reply(Bind(sys, call), call, true);
    forall r | r in t.rows ensures RowInv(t, t.rows[r]) { assert RowInv(sys, sys.rows[r]); }
  }

  lemma RotateKeepsInv(sys: System, r: RegistrationId, token: Token, lifetime: nat)
    requires Inv(sys) && (Stores(sys, Rotate(r, token, lifetime)) ==> token !in sys.bound)
    ensures Inv(Next(sys, Rotate(r, token, lifetime)))
  {
    var t := Next(sys, Rotate(r, token, lifetime));
    forall q | q in t.rows ensures RowInv(t, t.rows[q]) { if q in sys.rows { assert RowInv(sys, sys.rows[q]); } }
    forall r1, r2 | r1 in t.rows && r2 in t.rows && r1 != r2 && t.rows[r1].token.Some?
      ensures t.rows[r1].token != t.rows[r2].token
    {
      assert RowInv(sys, sys.rows[r1]) && RowInv(sys, sys.rows[r2]);
    }
  }

  lemma UpdateKeepsInv(sys: System, call: CallId)
    requires Inv(sys) && call in sys.calls && sys.calls[call].stage == Claiming
    ensures Inv(Next(sys, Update(call)))
    ensures forall token :: token in sys.bound ==>
              token in Next(sys, Update(call)).bound && Next(sys, Update(call)).bound[token] == sys.bound[token]
  {
    var c := sys.calls[call];
    if c.registration in sys.rows && Live(sys.rows[c.registration], c.token, c.now)
      && sys.rows[c.registration].phone.None? {
      BindKeepsInv(sys, call);
    } else {
      StageKeepsInv(sys, call, Rereading);
    }
  }

  lemma ReadsKeepInv(sys: System, call: CallId)
    requires Inv(sys) && call in sys.calls
    ensures Inv(Next(sys, Read(call))) && Inv(Next(sys, Reread(call)))
  {
    ReplyKeepsInv(sys, call, false);
    StageKeepsInv(sys, call, Claiming);
    GrantedPhoneIsBound(sys, call);
  }

  lemma OthersKeepInv(sys: System, step: Step)
    requires Inv(sys) && (step.Tick? || step.Register? || step.Start? || step.Abandon?)
    ensures Inv(Next(sys, step))
  {
    var t := Next(sys, step);
    if step.Start? { NormalizePhoneIsIdempotent(step.rawSender); }
    forall r | r in t.rows ensures RowInv(t, t.rows[r]) { if r in sys.rows { assert RowInv(sys, sys.rows[r]); } }
  }

  lemma StepKeepsInv(sys: System, step: Step)
    requires Inv(sys) && (Stores(sys, step) ==> step.newToken !in sys.bound)
    ensures Inv(Next(sys, step))
    ensures forall token :: token in sys.bound ==>
              token in Next(sys, step).bound && Next(sys, step).bound[token] == sys.bound[token]
    ensures sys.granted <= Next(sys, step).granted
  {
    match step
    case Rotate(r, token, lifetime) => RotateKeepsInv(sys, r, token, lifetime);
    case Read(call) => if call in sys.calls { ReadsKeepInv(sys, call); }
    case Update(call) => if call in sys.calls && sys.calls[call].stage == Claiming { UpdateKeepsInv(sys, call); }
    case Reread(call) => if call in sys.calls { ReadsKeepInv(sys, call); }
    case _ => OthersKeepInv(sys, step);
  }

  /** A sender that finds itself on the row is the bound one. */
  lemma GrantedPhoneIsBound(sys: System, call: CallId)
    requires Inv(sys) && call in sys.calls
    ensures var c := sys.calls[call];
            c.registration in sys.rows && sys.rows[c.registration].token == Some(c.token)
            && sys.rows[c.registration].phone.Some? && NormalizePhone(sys.rows[c.registration].phone.value) == c.sender
            ==> Inv(Reply(sys, call, true))
  {
    var c := sys.calls[call];
    if c.registration in sys.rows {
      assert RowInv(sys, sys.rows[c.registration]);
      if sys.rows[c.registration].token == Some(c.token) && sys.rows[c.registration].phone.Some?
         && NormalizePhone(sys.rows[c.registration].phone.value) == c.sender {
        ReplyKeepsInv(sys, call, true);
      }
    }
  }

  /** Once a claim has written a phone for a token, every run leaves that phone the token's only sender. */
  lemma {:induction false} FirstSenderIsFinal(sys: System, steps: seq<Step>)
    requires Inv(sys) && FreshTokens(sys, steps)
    ensures Inv(Run(sys, steps))
    ensures sys.granted <= Run(sys, steps).granted
    ensures forall token :: token in sys.bound ==>
              token in Run(sys, steps).bound && Run(sys, steps).bound[token] == sys.bound[token]
    decreases |steps|
  {
    if steps != [] {
      StepKeepsInv(sys, steps[0]);
      FirstSenderIsFinal(Next(sys, steps[0]), steps[1..]);
    }
  }

  /** All phones for which the claim ever answers true on one token value are equal. */
  lemma FirstSenderWins(sys: System, steps: seq<Step>, g1: Grant, g2: Grant)
    requires Inv(sys) && FreshTokens(sys, steps)
    requires g1 in Run(sys, steps).granted && g2 in Run(sys, steps).granted && g1.token == g2.token
    ensures g1.phone == g2.phone
  {
    FirstSenderIsFinal(sys, steps);
  }

  /** An undisturbed claim of a live, unbound token is granted and binds its sender. */
  lemma UnboundTokenIsGranted(sys: System, call: CallId, r: RegistrationId, token: Token, sender: string)
    requires r in sys.rows && Live(sys.rows[r], token, sys.clock) && sys.rows[r].phone.None?
    requires call !in sys.calls && NormalizePhone(sender) == sender && sender != ""
    ensures Run(sys, [Start(call, r, token, sender), Read(call), Update(call)]) ==
            sys.(rows := sys.rows[r := sys.rows[r].(phone := Some(sender))],
                 bound := sys.bound[token := sender], granted := sys.granted + {Grant(token, sender)})
  {
    var s1 := Next(sys, Start(call, r, token, sender));
    var s2 := Next(s1, Read(call));
    assert s2.calls == sys.calls[call := Claim(r, token, sender, sys.clock, Claiming)];
    assert Next(s2, Update(call)).calls == sys.calls;
    RunThree(sys, [Start(call, r, token, sender), Read(call), Update(call)]);
  }

  /** What the row of a registration lets a claim do at this time. */
  datatype Answer = Refused | Bound | Free

  function AnswerOf(sys: System, r: RegistrationId, token: Token, sender: string): Answer {
    if r !in sys.rows || sys.rows[r].token != Some(token) then Refused
    else if sys.rows[r].expiresAt.None? || sys.rows[r].expiresAt.value <= sys.clock then Refused
    else match sys.rows[r].phone
      case None => Free
      case Some(phone) => if NormalizePhone(phone) == sender then Bound else Refused
  }

  /**
   * An undisturbed claim: refused without a live token or by another sender,
   * granted to the bound one again, and granted and bound to the first.
   */
  lemma UndisturbedClaim(sys: System, call: CallId, r: RegistrationId, token: Token, rawSender: string)
    requires call !in sys.calls && NormalizePhone(rawSender) != ""
    ensures var sender := NormalizePhone(rawSender);
            var t := Run(sys, [Start(call, r, token, rawSender), Read(call), Update(call)]);
            match AnswerOf(sys, r, token, sender)
            case Refused => t == sys
            case Bound => t == sys.(granted := sys.granted + {Grant(token, sender)})
            case Free =>
              t == sys.(rows := sys.rows[r := sys.rows[r].(phone := Some(sender))],
                        bound := sys.bound[token := sender], granted := sys.granted + {Grant(token, sender)})
  {
    var sender := NormalizePhone(rawSender);
    var s1 := Next(sys, Start(call, r, token, rawSender));
    assert s1 == sys.(calls := sys.calls[call := Claim(r, token, sender, sys.clock, Reading)]);
    var s2 := Next(s1, Read(call));
    assert s1.calls - {call} == sys.calls;
    if AnswerOf(sys, r, token, sender).Free? {
      assert s2.calls == sys.calls[call := Claim(r, token, sender, sys.clock, Claiming)];
      assert s2.calls - {call} == sys.calls;
    }
    RunThree(sys, [Start(call, r, token, rawSender), Read(call), Update(call)]);
  }

  /** A claim overtaken between its read and its update: granted exactly if the sender that won is its own. */
  lemma OvertakenClaim(sys: System, call: CallId)
    requires call in sys.calls && sys.calls[call].stage == Claiming
    requires var c := sys.calls[call];
             c.registration in sys.rows && Live(sys.rows[c.registration], c.token, sys.clock)
               && sys.rows[c.registration].phone.Some?
    ensures var c, t := sys.calls[call], Next(Next(sys, Update(call)), Reread(call));
            && t.rows == sys.rows && t.bound == sys.bound && t.calls == sys.calls - {call}
            && t.granted == if NormalizePhone(sys.rows[c.registration].phone.value) == c.sender
                            then sys.granted + {Grant(c.token, c.sender)} else sys.granted
  {
  }

  /** A rotation to a token nobody else has gives it to the registration, bound to nobody; any other does nothing. */
  lemma RotationLeaves(sys: System, r: RegistrationId, token: Token, lifetime: nat)
    ensures Next(sys, Rotate(r, token, lifetime)) ==
            if r in sys.rows && forall q :: q in sys.rows && q != r ==> sys.rows[q].token != Some(token)
            then sys.(rows := sys.rows[r := Row(Some(token), Some(sys.clock + lifetime), None)])
            else sys
  {
    assert Collides(sys.rows, r, token) <==> exists q :: q in sys.rows && q != r && sys.rows[q].token == Some(token);
  }

  lemma RunThree(sys: System, steps: seq<Step>)
    requires |steps| == 3
    ensures Run(sys, steps) == Next(Next(Next(sys, steps[0]), steps[1]), steps[2])
  {
    var first := Next(sys, steps[0]);
    var second := Next(first, steps[1]);
    assert steps[1..][1..] == [steps[2]];
    assert Run(first, steps[1..]) == Run(second, [steps[2]]);
    assert Run(second, [steps[2]]) == Next(second, steps[2]);
  }

  // ----- What rotations must not store -----------------------------------

  /** From here on all phones that are granted one token are equal, unless a rotation brings back a bound token. */
  ghost predicate AllAgree(sys: System) {
    forall steps, g1, g2 :: FreshTokens(sys, steps) && GrantedOnOne(Run(sys, steps), g1, g2) ==> g1.phone == g2.phone
  }

  predicate GrantedOnOne(sys: System, g1: Grant, g2: Grant) {
    g1 in sys.granted && g2 in sys.granted && g1.token == g2.token
  }

  lemma InvAgrees(sys: System)
    requires Inv(sys)
    ensures AllAgree(sys)
  {
    forall steps, g1, g2 | FreshTokens(sys, steps) && GrantedOnOne(Run(sys, steps), g1, g2)
      ensures g1.phone == g2.phone
    {
      FirstSenderWins(sys, steps, g1, g2);
    }
  }

  lemma {:induction false} CallsAreBounded(calls: set<CallId>) returns (free: CallId)
    ensures forall c :: c in calls ==> c < free
    decreases |calls|
  {
    if calls == {} {
      free := 0;
    } else {
      var c :| c in calls;
      var above := CallsAreBounded(calls - {c});
      free := if above > c then above else c + 1;
      forall d | d in calls ensures d < free { assert d == c || d in calls - {c}; }
    }
  }

  lemma {:induction false} NoRotationIsFresh(sys: System, steps: seq<Step>)
    requires forall i :: 0 <= i < |steps| ==> !steps[i].Rotate?
    ensures FreshTokens(sys, steps)
    decreases |steps|
  {
    if steps != [] { NoRotationIsFresh(Next(sys, steps[0]), steps[1..]); }
  }

  /** A second phone claims a token that was bound before and has been stored again. */
  lemma ReusedTokenDisagrees(sys: System, r: RegistrationId, token: Token, lifetime: nat)
    requires Inv(sys) && Stores(sys, Rotate(r, token, lifetime)) && lifetime > 0 && token in sys.bound
    ensures !AllAgree(Next(sys, Rotate(r, token, lifetime)))
  {
    var rotated := Next(sys, Rotate(r, token, lifetime));
    var call := CallsAreBounded(rotated.calls.Keys);
    var sender := if sys.bound[token] == "1" then "2" else "1";
    DigitsAreKept(sender);
    var steps := [Start(call, r, token, sender), Read(call), Update(call)];
    UnboundTokenIsGranted(rotated, call, r, token, sender);
    NoRotationIsFresh(rotated, steps);
    assert GrantedOnOne(Run(rotated, steps), Grant(token, sys.bound[token]), Grant(token, sender));
  }

  /** One rotation keeps the first sender the only one exactly when nobody was bound to the token it stores. */
  lemma RotationAgreesIffUnbound(sys: System, r: RegistrationId, token: Token, lifetime: nat)
    requires Inv(sys) && Stores(sys, Rotate(r, token, lifetime)) && lifetime > 0
    ensures AllAgree(Next(sys, Rotate(r, token, lifetime))) <==> token !in sys.bound
  {
    if token in sys.bound {
      ReusedTokenDisagrees(sys, r, token, lifetime);
    } else {
      RotateKeepsInv(sys, r, token, lifetime);
      InvAgrees(Next(sys, Rotate(r, token, lifetime)));
    }
  }

  ghost predicate AgreesThroughout(sys: System, steps: seq<Step>)
    decreases |steps|
  {
    AllAgree(sys) && (steps != [] ==> AgreesThroughout(Next(sys, steps[0]), steps[1..]))
  }

  /**
   * Over a whole run, tokens living some time: first sender wins from every
   * moment on exactly when no rotation stores a bound token again.
   */
  lemma {:induction false} FirstSenderWinsIffFresh(sys: System, steps: seq<Step>)
    requires Inv(sys) && forall i :: 0 <= i < |steps| && steps[i].Rotate? ==> steps[i].lifetime > 0
    ensures AgreesThroughout(sys, steps) <==> FreshTokens(sys, steps)
    decreases |steps|
  {
    InvAgrees(sys);
    if steps != [] {
      var next := Next(sys, steps[0]);
      if Stores(sys, steps[0]) && steps[0].newToken in sys.bound {
        ReusedTokenDisagrees(sys, steps[0].registration, steps[0].newToken, steps[0].lifetime);
      } else {
        StepKeepsInv(sys, steps[0]);
        FirstSenderWinsIffFresh(next, steps[1..]);
      }
    }
  }

  const EMPTY := System(0, map[], map[], map[], {})

  const FIRST_CLAIM: seq<Step> := [Start(1, 0, "T", "1"), Read(1), Update(1)]

  const SECOND_CLAIM: seq<Step> := [Start(2, 0, "T", "2"), Read(2), Update(2)]

  /** From an empty table: a token is claimed, comes back by a rotation, and is granted to a second phone. */
  lemma ReusedTokenIsGrantedTwice()
    ensures var steps := [Register(0), Rotate(0, "T", 9)] + FIRST_CLAIM + [Rotate(0, "T", 9)] + SECOND_CLAIM;
            Run(EMPTY, steps).granted == {Grant("T", "1"), Grant("T", "2")}
  {
    var issued := System(0, map[0 := Row(Some("T"), Some(9), None)], map[], map[], {});
    RunTwo(EMPTY, Register(0), Rotate(0, "T", 9));
    assert Next(Next(EMPTY, Register(0)), Rotate(0, "T", 9)) == issued;
    DigitsAreKept("1");
    DigitsAreKept("2");
    UnboundTokenIsGranted(issued, 1, 0, "T", "1");
    var claimed := Run(issued, FIRST_CLAIM);
    RunOne(claimed, Rotate(0, "T", 9));
    var rotated := Next(claimed, Rotate(0, "T", 9));
    UnboundTokenIsGranted(rotated, 2, 0, "T", "2");
    var first := [Register(0), Rotate(0, "T", 9)];
    RunConcat(EMPTY, first, FIRST_CLAIM);
    RunConcat(EMPTY, first + FIRST_CLAIM, [Rotate(0, "T", 9)]);
    RunConcat(EMPTY, first + FIRST_CLAIM + [Rotate(0, "T", 9)], SECOND_CLAIM);
  }

  lemma RunOne(sys: System, s: Step)
    ensures Run(sys, [s]) == Next(sys, s)
  {
    assert [s][1..] == [];
  }

  lemma RunTwo(sys: System, s: Step, t: Step)
    ensures Run(sys, [s, t]) == Next(Next(sys, s), t)
  {
    assert [s, t][1..] == [t];
    RunOne(Next(sys, s), t);
  }

  lemma {:induction false} RunConcat(sys: System, a: seq<Step>, b: seq<Step>)
    ensures Run(sys, a + b) == Run(Run(sys, a), b)
    decreases |a|
  {
    if a == [] { assert a + b == b; }
    else {
      assert (a + b)[1..] == a[1..] + b;
      RunConcat(Next(sys, a[0]), a[1..], b);
    }
  }

  // ----- The tables and the requests -----------------------------------

  const MAX_ATTEMPTS := 5

  class TicketRequests {
    var clock: nat
    var rows: map<RegistrationId, Row>
    var calls: map<CallId, Claim>
    ghost var bound: map<Token, string>
    ghost var granted: set<Grant>

    ghost function State(): System reads this { System(clock, rows, calls, bound, granted) }

    constructor ()
      ensures State() == EMPTY && Inv(State())
    {
      clock, rows, calls, bound, granted := 0, map[], map[], map[], {};
    }

    /** claimTicketRequestSender up to its first answer from the database. */
    method ReadRegistration(call: CallId) returns (reply: Option<bool>)
      requires call in calls && calls[call].stage == Reading
      modifies this
      ensures State() == Next(old(State()), Read(call))
      ensures reply.Some? <==> call !in calls
      ensures reply == Some(true) ==> Grant(old(calls)[call].token, old(calls)[call].sender) in granted
    {
      var c := calls[call];
      if c.registration !in rows || !Live(rows[c.registration], c.token, c.now) {
        reply := Answer(call, false);
        return;
      }
      if rows[c.registration].phone.Some? {
        reply := Answer(call, NormalizePhone(rows[c.registration].phone.value) == c.sender);
        return;
      }
      calls := calls[call := c.(stage := Claiming)];
      reply := None;
    }

    /** The conditional updateMany. */
    method UpdateUnclaimed(call: CallId) returns (reply: Option<bool>)
      requires call in calls && calls[call].stage == Claiming
      modifies this
      ensures State() == Next(old(State()), Update(call))
      ensures reply == Some(true) || (reply == None && call in calls && calls[call].stage == Rereading)
    {
      var c := calls[call];
      if c.registration in rows && Live(rows[c.registration], c.token, c.now) && rows[c.registration].phone.None? {
        rows := rows[c.registration := rows[c.registration].(phone := Some(c.sender))];
        bound := bound[c.token := c.sender];
        reply := Answer(call, true);
      } else {
        calls := calls[call := c.(stage := Rereading)];
        reply := None;
      }
    }

    /** The second read, after an update that changed no row. */
    method ReadAgain(call: CallId) returns (reply: Option<bool>)
      requires call in calls && calls[call].stage == Rereading
      modifies this
      ensures State() == Next(old(State()), Reread(call))
      ensures reply.Some?
    {
      var c := calls[call];
      if c.registration !in rows || !Live(rows[c.registration], c.token, clock) || rows[c.registration].phone.None? {
        reply := Answer(call, false);
        return;
      }
      reply := Answer(call, NormalizePhone(rows[c.registration].phone.value) == c.sender);
    }

    method Answer(call: CallId, grant: bool) returns (reply: Option<bool>)
      requires call in calls
      modifies this`calls, this`granted
      ensures State() == Reply(old(State()), call, grant)
      ensures reply == Some(grant)
    {
      if grant {
        granted := granted + {Grant(calls[call].token, calls[call].sender)};
      }
      calls := calls - {call};
      reply := Some(grant);
    }

    /** A registration comes without a token. */
    method AddRegistration(r: RegistrationId)
      requires r !in rows
      modifies this`rows
      ensures State() == Next(old(State()), Register(r))
    {
      rows := rows[r := Row(None, None, None)];
    }

    /** update under the unique index on the token. */
    method StoreToken(r: RegistrationId, token: Token, lifetime: nat) returns (stored: bool)
      requires r in rows
      modifies this`rows
      ensures stored == !Collides(old(rows), r, token)
      ensures State() == Next(old(State()), Rotate(r, token, lifetime))
    {
      stored := !Collides(rows, r, token);
      if stored {
        rows := rows[r := Row(Some(token), Some(clock + lifetime), None)];
      }
    }

    /** At most five draws; the first one free in the unique index is stored and the sender is unbound. */
    method PersistUniqueToken(r: RegistrationId, draws: seq<Token>, lifetime: nat)
      returns (result: Result<Token, string>)
      requires r in rows && |draws| >= MAX_ATTEMPTS
      modifies this`rows
      ensures result.Ok? ==>
                exists k :: 0 <= k < MAX_ATTEMPTS && result.value == draws[k] && !Collides(old(rows), r, draws[k])
                            && (forall j :: 0 <= j < k ==> Collides(old(rows), r, draws[j]))
                            && State() == Next(old(State()), Rotate(r, draws[k], lifetime))
      ensures result.Err? ==>
              State() == old(State()) && forall j :: 0 <= j < MAX_ATTEMPTS ==> Collides(rows, r, draws[j])
    {
      for attempt := 0 to MAX_ATTEMPTS
        invariant State() == old(State())
        invariant forall j :: 0 <= j < attempt ==> Collides(old(rows), r, draws[j])
      {
        var stored := StoreToken(r, draws[attempt], lifetime);
        if stored {
          return Ok(draws[attempt]);
        }
      }
      result := Err("Could not generate ticket request token");
    }
  }
}
