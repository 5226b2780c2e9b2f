// The email-code authenticator: a code and its issue time kept as notes in two stores of the
// authentication session, of which only the client notes survive a fork.
module EmailAuthenticator {
  import opened Wrappers
  import opened Decimals
  import opened Codes

  const CODE_LIFESPAN_MILLIS: nat := 5 * 60 * 1000
  const CODE_NOTE := "oidc4ac.email.code"
  const ISSUED_AT_NOTE := "oidc4ac.email.issued-at"

  // ---------------------------------------------------------------- 64-bit times

  const TWO_63: int := 0x8000_0000_0000_0000
  const TWO_64: int := 0x1_0000_0000_0000_0000

  // System.currentTimeMillis() since the epoch
  type Millis = t: nat | t < TWO_63

  // The value of a long after wrap-around.
  function Wrap(x: int): int { (x + TWO_63) % TWO_64 - TWO_63 }

  // Long.toString on a time
  function LongText(t: Millis): string { Digits(t) }

  // Long.parseLong, for ASCII digits; None is NumberFormatException
  function ParseLong(s: string): (r: Option<int>)
    ensures r.Some? ==> -TWO_63 <= r.value < TWO_63
  {
    var signed := s != "" && (s[0] == '-' || s[0] == '+');
    var digits := if signed then s[1..] else s;
    if digits == "" || !AllDigits(digits) then None
    else
      var v := if signed && s[0] == '-' then -(NatOf(digits) as int) else NatOf(digits);
      if -TWO_63 <= v < TWO_63 then Some(v) else None
  }

  lemma LongRoundTrip(t: Millis)
    ensures ParseLong(LongText(t)) == Some(t)
  {
    assert IsDigit(LongText(t)[0]);
  }

  predicate IsExpired(issuedAt: Option<string>, now: Millis) {
    match issuedAt
    case None => true
    case Some(s) =>
      match ParseLong(s)
      case None => true
      case Some(t) => Wrap(now - t) > CODE_LIFESPAN_MILLIS
  }

  // ---------------------------------------------------------------- the session and its notes

  type Notes = map<string, string>

  datatype Session = Session(auth: Notes, client: Notes)

  function GetNote(s: Session, name: string): Option<string> {
    if name in s.auth then Some(s.auth[name]) else if name in s.client then Some(s.client[name]) else None
  }

  function SetNote(s: Session, name: string, value: string): Session {
    Session(s.auth[name := value], s.client[name := value])
  }

  function RemoveNote(s: Session, name: string): Session {
    Session(s.auth - {name}, s.client - {name})
  }

  // ---------------------------------------------------------------- requests

  // RANDOM.nextInt(1_000_000)
  type Draw = n: nat | n < 1_000_000

  // What a request finds outside the session: the user's address, the realm's mail settings, the
  // random draw, whether the mail goes out, and the clock when it is read, at the send and at the
  // stamp.
  datatype World = World(
    hasAddress: bool, hasSmtp: bool, draw: Draw, delivered: bool, checkAt: Millis, sentAt: Millis, stampAt: Millis)

  predicate InOrder(w: World) { w.checkAt <= w.sentAt <= w.stampAt }

  datatype Mail = Mail(code: string, sentAt: Millis, stamp: Millis)

  datatype Response = CodeForm(invalid: bool) | InternalError | InvalidCredentials | Success

  datatype Request = Authenticate(world: World) | Action(world: World, submitted: Option<string>) | Fork

  // What one request leaves behind: the session, the mail it sent, and its answer.
  datatype Outcome = Outcome(session: Session, sent: Option<Mail>, response: Option<Response>)

  // issueCodeIfNeeded; the error flag is the thrown EmailException
  function IssueCodeIfNeeded(s: Session, w: World): (r: (Session, Option<Mail>, bool))
    requires InOrder(w)
  {
    var existing := GetNote(s, CODE_NOTE);
    if existing.Some? && !IsExpired(GetNote(s, ISSUED_AT_NOTE), w.checkAt) then (s, None, false)
    else if !w.hasAddress || !w.hasSmtp || !w.delivered then (s, None, true)
    else
      var code := SixDigits(w.draw);
      (SetNote(SetNote(s, CODE_NOTE, code), ISSUED_AT_NOTE, LongText(w.stampAt)),
       Some(Mail(code, w.sentAt, w.stampAt)), false)
  }

  function AuthenticateStep(s: Session, w: World): Outcome
    requires InOrder(w)
  {
    var issued := IssueCodeIfNeeded(s, w);
    Outcome(issued.0, issued.1, Some(if issued.2 then InternalError else CodeForm(false)))
  }

  function ActionStep(s: Session, w: World, submitted: Option<string>): Outcome
    requires InOrder(w)
  {
    var expected := GetNote(s, CODE_NOTE);
    var issuedAt := GetNote(s, ISSUED_AT_NOTE);
    var cleared := RemoveNote(RemoveNote(s, CODE_NOTE), ISSUED_AT_NOTE);
    if expected.None? || IsExpired(issuedAt, w.checkAt) then
      var issued := IssueCodeIfNeeded(cleared, w);
      Outcome(issued.0, issued.1, Some(if issued.2 then InternalError else CodeForm(true)))
    else if submitted == expected then Outcome(cleared, None, Some(Success))
    else Outcome(s, None, Some(InvalidCredentials))
  }

  function Step(s: Session, r: Request): Outcome
    requires !r.Fork? ==> InOrder(r.world)
  {
    match r
    case Authenticate(w) => AuthenticateStep(s, w)
    case Action(w, submitted) => ActionStep(s, w, submitted)
    case Fork => Outcome(Session(map[], s.client), None, None)
  }

  // ---------------------------------------------------------------- in place

  // The authentication session that the authenticator's methods change.
  class AuthenticationSession {
    var authNotes: Notes
    var clientNotes: Notes

    function View(): Session
      reads this
    {
      Session(authNotes, clientNotes)
    }

    constructor ()
      ensures View() == Session(map[], map[])
    {
      authNotes, clientNotes := map[], map[];
    }

    method SetSessionNote(name: string, value: string)
      modifies this
      ensures View() == SetNote(old(View()), name, value)
    {
      authNotes := authNotes[name := value];
      clientNotes := clientNotes[name := value];
    }

    method RemoveSessionNote(name: string)
      modifies this
      ensures View() == RemoveNote(old(View()), name)
    {
      authNotes := authNotes - {name};
      clientNotes := clientNotes - {name};
    }

    method IssueIfNeeded(w: World) returns (sent: Option<Mail>, threw: bool)
      requires InOrder(w)
      modifies this
      ensures (View(), sent, threw) == IssueCodeIfNeeded(old(View()), w)
    {
      sent := None;
      var existing := GetNote(View(), CODE_NOTE);
      if existing.Some? && !IsExpired(GetNote(View(), ISSUED_AT_NOTE), w.checkAt) { return None, false; }
      if !w.hasAddress { return None, true; }
      if !w.hasSmtp { return None, true; }
      var code := SixDigits(w.draw);
      if !w.delivered { return None, true; }
      SetSessionNote(CODE_NOTE, code);
      SetSessionNote(ISSUED_AT_NOTE, LongText(w.stampAt));
      return Some(Mail(code, w.sentAt, w.stampAt)), false;
    }

    method Authenticate(w: World) returns (sent: Option<Mail>, response: Response)
      requires InOrder(w)
      modifies this
      ensures Outcome(View(), sent, Some(response)) == AuthenticateStep(old(View()), w)
    {
      var threw;
      sent, threw := IssueIfNeeded(w);
      response := if threw then InternalError else CodeForm(false);
    }

    method Action(w: World, submitted: Option<string>) returns (sent: Option<Mail>, response: Response)
      requires InOrder(w)
      modifies this
      ensures Outcome(View(), sent, Some(response)) == ActionStep(old(View()), w, submitted)
    {
      var expected := GetNote(View(), CODE_NOTE);
      var issuedAt := GetNote(View(), ISSUED_AT_NOTE);
      if expected.None? || IsExpired(issuedAt, w.checkAt) {
        RemoveSessionNote(CODE_NOTE);
        RemoveSessionNote(ISSUED_AT_NOTE);
        var threw;
        sent, threw := IssueIfNeeded(w);
        response := if threw then InternalError else CodeForm(true);
        return;
      }
      if submitted == expected {
        RemoveSessionNote(CODE_NOTE);
        RemoveSessionNote(ISSUED_AT_NOTE);
        return None, Success;
      }
      return None, InvalidCredentials;
    }

    // The planner's fork of the session: the client notes are copied, the auth notes are not.
    method Fork() returns (forked: AuthenticationSession)
      ensures fresh(forked) && forked.View() == Step(View(), Request.Fork).session
    {
      forked := new AuthenticationSession();
      forked.clientNotes := clientNotes;
    }
  }
}
