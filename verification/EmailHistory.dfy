// Whole histories of the email authenticator on one line of sessions: what its answers and its
// mails mean, however challenges, wrong codes, failed mails and forks interleave.
module EmailHistory {
  import opened Wrappers
  import opened Decimals
  import opened EmailAuthenticator

  // ---------------------------------------------------------------- one optional code

  // What the two note stores amount to: at most one code with its issue time.
  datatype Pending = Nothing | Waiting(code: string, stamp: Millis)

  predicate Live(p: Pending, now: Millis) {
    p.Waiting? && now - p.stamp <= CODE_LIFESPAN_MILLIS
  }

  // The client notes hold the pending code and its time or neither; the auth notes hold the same
  // pair or neither.
  predicate Represents(s: Session, p: Pending) {
    && (CODE_NOTE in s.client <==> p.Waiting?) && (ISSUED_AT_NOTE in s.client <==> p.Waiting?)
    && (p.Waiting? ==> s.client[CODE_NOTE] == p.code && s.client[ISSUED_AT_NOTE] == LongText(p.stamp))
    && (CODE_NOTE in s.auth <==> ISSUED_AT_NOTE in s.auth)
    && (CODE_NOTE in s.auth ==>
          && p.Waiting? && s.auth[CODE_NOTE] == p.code && s.auth[ISSUED_AT_NOTE] == LongText(p.stamp))
  }

  // The reference: one optional code that a send sets and a success or an expired check clears.
  datatype AbstractOutcome = AbstractOutcome(pending: Pending, sent: Option<Mail>, response: Option<Response>)

  predicate Sends(w: World) { w.hasAddress && w.hasSmtp && w.delivered }

  function FreshMail(w: World): Mail { Mail(Codes.SixDigits(w.draw), w.sentAt, w.stampAt) }

  function Issue(p: Pending, w: World, form: Response): AbstractOutcome {
    if Sends(w) then AbstractOutcome(Waiting(FreshMail(w).code, w.stampAt), Some(FreshMail(w)), Some(form))
    else AbstractOutcome(p, None, Some(InternalError))
  }

  function AbstractStep(p: Pending, r: Request): AbstractOutcome {
    match r
    case Fork => AbstractOutcome(p, None, None)
    case Authenticate(w) =>
      if Live(p, w.checkAt) then AbstractOutcome(p, None, Some(CodeForm(false))) else Issue(p, w, CodeForm(false))
    case Action(w, submitted) =>
      if !Live(p, w.checkAt) then Issue(Nothing, w, CodeForm(true))
      else if submitted == Some(p.code) then AbstractOutcome(Nothing, None, Some(Success))
      else AbstractOutcome(p, None, Some(InvalidCredentials))
  }

  lemma NotesDiffer()
    ensures CODE_NOTE != ISSUED_AT_NOTE
  {
    assert |CODE_NOTE| != |ISSUED_AT_NOTE|;
  }

  // The stored time is read back exactly, and its difference to a later clock does not wrap.
  lemma ExpiryOf(stamp: Millis, now: Millis)
    ensures IsExpired(Some(LongText(stamp)), now) <==> now - stamp > CODE_LIFESPAN_MILLIS
  {
    LongRoundTrip(stamp);
  }

  // The fallback read sees the pending pair, whether or not the auth notes are there.
  lemma {:induction false} ReadsPending(s: Session, p: Pending, now: Millis)
    requires Represents(s, p)
    ensures GetNote(s, CODE_NOTE) == if p.Waiting? then Some(p.code) else None
    ensures GetNote(s, ISSUED_AT_NOTE) == if p.Waiting? then Some(LongText(p.stamp)) else None
    ensures Live(p, now) <==> GetNote(s, CODE_NOTE).Some? && !IsExpired(GetNote(s, ISSUED_AT_NOTE), now)
  {
    hide LongText, IsExpired;
    if p.Waiting? { ExpiryOf(p.stamp, now); }
  }

  lemma {:induction false} IssueRefines(s: Session, p: Pending, w: World, form: Response)
    requires Represents(s, p) && InOrder(w) && !Live(p, w.checkAt)
    ensures var issued, a := IssueCodeIfNeeded(s, w), Issue(p, w, form);
            && Represents(issued.0, a.pending) && issued.1 == a.sent
            && a.response == Some(if issued.2 then InternalError else form)
  {
    hide LongText, IsExpired;
    NotesDiffer();
    ReadsPending(s, p, w.checkAt);
  }

  // Every request on the two stores is the same request on the one optional code. A fork, which
  // drops the auth notes, changes nothing there.
  lemma {:induction false} StepRefines(s: Session, p: Pending, r: Request)
    requires Represents(s, p) && (!r.Fork? ==> InOrder(r.world))
    ensures var o, a := Step(s, r), AbstractStep(p, r);
            Represents(o.session, a.pending) && o.sent == a.sent && o.response == a.response
  {
    hide LongText, IsExpired, IssueCodeIfNeeded;
    NotesDiffer();
    match r {
      case Fork =>
      case Authenticate(w) =>
        ReadsPending(s, p, w.checkAt);
        if Live(p, w.checkAt) { LiveIssue(s, p, w); } else { IssueRefines(s, p, w, CodeForm(false)); }
      case Action(w, submitted) =>
        var cleared := RemoveNote(RemoveNote(s, CODE_NOTE), ISSUED_AT_NOTE);
        ReadsPending(s, p, w.checkAt);
        assert Represents(cleared, Nothing);
        if !Live(p, w.checkAt) { IssueRefines(cleared, Nothing, w, CodeForm(true)); }
    }
  }

  lemma LiveIssue(s: Session, p: Pending, w: World)
    requires Represents(s, p) && InOrder(w) && Live(p, w.checkAt)
    ensures IssueCodeIfNeeded(s, w) == (s, None, false)
  {
    ReadsPending(s, p, w.checkAt);
  }

  // A name is out of both stores, or holds a value in both.
  predicate Gone(s: Session, name: string) { name !in s.auth && name !in s.client }

  predicate Holds(s: Session, name: string, value: string) {
    name in s.auth && s.auth[name] == value && name in s.client && s.client[name] == value
  }

  // What a request does to the two notes in each store: a mail leaves its code and its time in both,
  // a success and a check that found no live code without sending leave neither, a fork empties the
  // auth notes only, and everything else changes nothing.
  lemma NotesAfter(s: Session, p: Pending, r: Request)
    requires Represents(s, p) && (!r.Fork? ==> InOrder(r.world))
    ensures var o := Step(s, r);
            && (o.sent.Some? ==>
                  Holds(o.session, CODE_NOTE, o.sent.value.code) &&
                  Holds(o.session, ISSUED_AT_NOTE, Digits(o.sent.value.stamp)))
            && (o.response == Some(Success) || (r.Action? && o.response == Some(InternalError)) ==>
                  Gone(o.session, CODE_NOTE) && Gone(o.session, ISSUED_AT_NOTE))
            && (r.Fork? ==> o.session.auth == map[] && o.session.client == s.client)
            && (o.response == Some(InvalidCredentials) || (r.Authenticate? && o.sent.None?) ==> o.session == s)
  {
    hide IsExpired, Digits, Codes.SixDigits;
    NotesDiffer();
  }

  // Notes of other names are never touched in the client store.
  lemma OtherNotesKept(s: Session, r: Request, name: string)
    requires !r.Fork? ==> InOrder(r.world)
    requires name != CODE_NOTE && name != ISSUED_AT_NOTE
    ensures name in Step(s, r).session.client <==> name in s.client
    ensures name in s.client ==> Step(s, r).session.client[name] == s.client[name]
  {
    hide LongText, IsExpired;
  }

  // ---------------------------------------------------------------- histories

  datatype Entry = Entry(sent: Option<Mail>, response: Option<Response>)

  // The clock when the last request was over.
  function LatestTime(rs: seq<Request>): Millis {
    if rs == [] then 0
    else match rs[|rs| - 1]
      case Fork => LatestTime(rs[..|rs| - 1])
      case Authenticate(w) => w.stampAt
      case Action(w, _) => w.stampAt
  }

  // Requests one after the other on a clock that never goes back.
  predicate Ordered(rs: seq<Request>) {
    rs == [] ||
    var last, before := rs[|rs| - 1], rs[..|rs| - 1];
    Ordered(before) && (!last.Fork? ==> InOrder(last.world) && LatestTime(before) <= last.world.checkAt)
  }

  // The session and the log after a history that starts in a fresh session.
  function Run(rs: seq<Request>): (r: (Session, seq<Entry>))
    requires Ordered(rs)
    ensures |r.1| == |rs|
  {
    if rs == [] then (Session(map[], map[]), [])
    else
      var before := Run(rs[..|rs| - 1]);
      var o := Step(before.0, rs[|rs| - 1]);
      (o.session, before.1 + [Entry(o.sent, o.response)])
  }

  function AbstractRun(rs: seq<Request>): (r: (Pending, seq<Entry>))
    ensures |r.1| == |rs|
  {
    if rs == [] then (Nothing, [])
    else
      var before := AbstractRun(rs[..|rs| - 1]);
      var a := AbstractStep(before.0, rs[|rs| - 1]);
      (a.pending, before.1 + [Entry(a.sent, a.response)])
  }

  // Refinement over whole histories: the same mails, the same answers, and stores that hold
  // exactly the pending code.
  lemma {:induction false} RunRefines(rs: seq<Request>)
    requires Ordered(rs)
    ensures Represents(Run(rs).0, AbstractRun(rs).0) && Run(rs).1 == AbstractRun(rs).1
  {
    hide Step, AbstractStep;
    if rs == [] {
    } else {
      var before := rs[..|rs| - 1];
      RunRefines(before);
      StepRefines(Run(before).0, AbstractRun(before).0, rs[|rs| - 1]);
    }
  }

  // ---------------------------------------------------------------- the log decides

  // The last mail that no success came after.
  function Mark(log: seq<Entry>): Option<Mail> {
    if log == [] then None
    else
      var last := log[|log| - 1];
      if last.sent.Some? then last.sent
      else if last.response == Some(Success) then None
      else Mark(log[..|log| - 1])
  }

  predicate Fresh(mark: Option<Mail>, now: Millis) { mark.Some? && now - mark.value.stamp <= 300_000 }

  // The pending code is that of the last mail, or that mail has expired.
  predicate Tracks(p: Pending, mark: Option<Mail>, now: Millis) {
    && (mark.Some? ==> mark.value.sentAt <= mark.value.stamp <= now)
    && (p.Waiting? ==> mark.Some? && p.code == mark.value.code && p.stamp == mark.value.stamp)
    && (p.Nothing? && mark.Some? ==> now - mark.value.stamp > CODE_LIFESPAN_MILLIS)
  }

  lemma {:induction false} RunTracks(rs: seq<Request>)
    requires Ordered(rs)
    ensures Tracks(AbstractRun(rs).0, Mark(AbstractRun(rs).1), LatestTime(rs))
  {
    if rs != [] {
      var before, last := rs[..|rs| - 1], rs[|rs| - 1];
      RunTracks(before);
      var log := AbstractRun(rs).1;
      assert log[..|log| - 1] == AbstractRun(before).1;
    }
  }

  // The world in which a request is answered.
  function CheckTime(r: Request): Millis
    requires !r.Fork?
  {
    r.world.checkAt
  }

  // The whole behaviour, decided by the log alone. After any history, an action succeeds exactly
  // when its text is the code of the last mail, no success came after that mail, and it is at
  // most five minutes old; a request sends a new mail exactly when there is no such fresh mail
  // and the mail can go out.
  lemma {:induction false} LogDecides(rs: seq<Request>, r: Request)
    requires Ordered(rs + [r]) && !r.Fork?
    ensures Ordered(rs)
    ensures var mark, log := Mark(Run(rs).1), Run(rs + [r]).1;
            var e := log[|rs|];
            && |log| == |rs| + 1 && log[..|rs|] == Run(rs).1
            && (e.response == Some(Success) <==>
                  r.Action? && Fresh(mark, CheckTime(r)) && r.submitted == Some(mark.value.code))
            && (e.sent == if !Fresh(mark, CheckTime(r)) && Sends(r.world) then Some(FreshMail(r.world)) else None)
            && (e.response == Some(InternalError) <==> !Fresh(mark, CheckTime(r)) && !Sends(r.world))
            && (e.response == Some(InvalidCredentials) <==>
                  r.Action? && Fresh(mark, CheckTime(r)) && r.submitted != Some(mark.value.code))
  {
    var all := rs + [r];
    assert all[..|all| - 1] == rs;
    RunRefines(rs);
    RunRefines(all);
    RunTracks(rs);
    hide Step, Run;
    var p := AbstractRun(rs).0;
    assert Live(p, CheckTime(r)) <==> Fresh(Mark(AbstractRun(rs).1), CheckTime(r));
  }

  // ---------------------------------------------------------------- safety

  predicate Quiet(e: Entry) { e.sent.None? && e.response != Some(Success) }

  // The mark is the mail of the last entry that is not quiet.
  lemma {:induction false} MarkEntry(log: seq<Entry>) returns (j: nat)
    requires Mark(log).Some?
    ensures j < |log| && log[j].sent == Mark(log)
    ensures forall k :: j < k < |log| ==> Quiet(log[k])
  {
    var n := |log| - 1;
    if log[n].sent.Some? {
      j := n;
    } else {
      j := MarkEntry(log[..n]);
      assert forall k :: j < k < n ==> log[k] == log[..n][k];
    }
  }

  lemma {:induction false} RunPrefix(rs: seq<Request>, n: nat)
    requires Ordered(rs) && n <= |rs|
    ensures Ordered(rs[..n]) && Run(rs[..n]).1 == Run(rs).1[..n]
    decreases |rs|
  {
    hide Step;
    if n < |rs| {
      var before := rs[..|rs| - 1];
      RunPrefix(before, n);
      assert before[..n] == rs[..n];
      assert Run(before).1 == Run(rs).1[..|rs| - 1];
      assert Run(rs).1[..|rs| - 1][..n] == Run(rs).1[..n];
    } else {
      assert rs[..n] == rs && Run(rs).1[..n] == Run(rs).1;
    }
  }

  lemma {:induction false} DecidedAt(rs: seq<Request>, i: nat)
    requires Ordered(rs) && i < |rs| && !rs[i].Fork?
    ensures Ordered(rs[..i]) && Run(rs[..i]).1 == Run(rs).1[..i]
    ensures var mark, e, r := Mark(Run(rs).1[..i]), Run(rs).1[i], rs[i];
            && (e.response == Some(Success) <==>
                  r.Action? && Fresh(mark, CheckTime(r)) && r.submitted == Some(mark.value.code))
            && (e.sent == if !Fresh(mark, CheckTime(r)) && Sends(r.world) then Some(FreshMail(r.world)) else None)
  {
    hide Run, Mark, Ordered, Step, AbstractStep;
    RunPrefix(rs, i);
    RunPrefix(rs, i + 1);
    assert rs[..i + 1] == rs[..i] + [rs[i]];
    LogDecides(rs[..i], rs[i]);
    assert Run(rs[..i + 1]).1[i] == Run(rs).1[i];
  }

  lemma {:induction false} ForkIsQuiet(rs: seq<Request>, i: nat)
    requires Ordered(rs) && i < |rs| && rs[i].Fork?
    ensures Quiet(Run(rs).1[i])
  {
    RunPrefix(rs, i + 1);
    assert rs[..i + 1][|rs[..i + 1]| - 1] == Request.Fork;
    assert Run(rs[..i + 1]).1[i] == Run(rs).1[i];
  }

  // Each success answers the text of an earlier mail at most five minutes after its stamp, with
  // no other mail and no other success in between.
  lemma {:induction false} SuccessHasItsMail(rs: seq<Request>, i: nat) returns (j: nat)
    requires Ordered(rs) && i < |rs| && Run(rs).1[i].response == Some(Success)
    ensures j < i && rs[i].Action?
    ensures var sent := Run(rs).1[j].sent;
            && sent.Some? && rs[i].submitted == Some(sent.value.code)
            && rs[i].world.checkAt - sent.value.stamp <= 300_000
    ensures forall k :: j < k < i ==> Quiet(Run(rs).1[k])
  {
    hide Run, Mark, Ordered;
    if rs[i].Fork? { ForkIsQuiet(rs, i); }
    DecidedAt(rs, i);
    j := MarkEntry(Run(rs).1[..i]);
    assert forall k :: j < k < i ==> Run(rs).1[..i][k] == Run(rs).1[k];
  }

  // Two successes never share a mail.
  lemma {:induction false} MailsAreUsedOnce(rs: seq<Request>, a: nat, b: nat) returns (j: nat, k: nat)
    requires Ordered(rs) && a < b < |rs|
    requires Run(rs).1[a].response == Some(Success) && Run(rs).1[b].response == Some(Success)
    ensures j < a < k < b
    ensures Run(rs).1[j].sent.Some? && rs[a].Action? && rs[a].submitted == Some(Run(rs).1[j].sent.value.code)
    ensures Run(rs).1[k].sent.Some? && rs[b].Action? && rs[b].submitted == Some(Run(rs).1[k].sent.value.code)
  {
    hide Run, Ordered;
    j := SuccessHasItsMail(rs, a);
    k := SuccessHasItsMail(rs, b);
    if rs[a].Fork? { ForkIsQuiet(rs, a); }
    DecidedAt(rs, a);
  }

  function CountSent(log: seq<Entry>): nat {
    if log == [] then 0 else CountSent(log[..|log| - 1]) + if log[|log| - 1].sent.Some? then 1 else 0
  }

  function CountSuccess(log: seq<Entry>): nat {
    if log == [] then 0
    else CountSuccess(log[..|log| - 1]) + if log[|log| - 1].response == Some(Success) then 1 else 0
  }

  // There are never more successes than mails; a mail that waits is one more.
  lemma {:induction false} SuccessesBounded(rs: seq<Request>)
    requires Ordered(rs)
    ensures var log := Run(rs).1;
            CountSuccess(log) + (if Mark(log).Some? then 1 else 0) <= CountSent(log)
  {
    hide Step, Ordered;
    if rs != [] {
      var n := |rs| - 1;
      var log := Run(rs).1;
      RunPrefix(rs, n);
      SuccessesBounded(rs[..n]);
      if rs[n].Fork? { ForkIsQuiet(rs, n); } else { DecidedAt(rs, n); }
    }
  }

  // ---------------------------------------------------------------- the send rate

  predicate NoSuccess(log: seq<Entry>, a: nat, b: nat) {
    forall k :: a <= k < b && k < |log| ==> log[k].response != Some(Success)
  }

  // Without a success in between, the mark is the last mail sent.
  lemma {:induction false} MarkAfter(log: seq<Entry>, i: nat)
    requires i < |log| && log[i].sent.Some? && NoSuccess(log, i, |log|)
    ensures Mark(log).Some?
    ensures (forall k :: i < k < |log| ==> log[k].sent.None?) ==> Mark(log) == log[i].sent
    decreases |log|
  {
    var n := |log| - 1;
    if i < n {
      var before := log[..n];
      assert forall k :: 0 <= k < n ==> before[k] == log[k];
      MarkAfter(before, i);
    }
  }

  // Two mails with no success between them are more than five minutes apart.
  lemma {:induction false} MailsApart(rs: seq<Request>, i: nat, j: nat)
    requires Ordered(rs) && i < j < |rs|
    requires Run(rs).1[i].sent.Some? && Run(rs).1[j].sent.Some? && NoSuccess(Run(rs).1, i, j)
    requires forall k :: i < k < j ==> Run(rs).1[k].sent.None?
    ensures var first, second := Run(rs).1[i].sent.value, Run(rs).1[j].sent.value;
            second.sentAt > first.stamp + 300_000 && second.stamp >= second.sentAt
  {
    hide Run, Mark, Ordered, Fresh;
    if rs[j].Fork? { ForkIsQuiet(rs, j); }
    DecidedAt(rs, j);
    var log := Run(rs).1[..j];
    assert forall k :: 0 <= k < j ==> log[k] == Run(rs).1[k];
    MarkAfter(log, i);
    SentInOrder(rs, j);
    NotFresh(Mark(log), CheckTime(rs[j]));
  }

  lemma NotFresh(mark: Option<Mail>, now: Millis)
    requires mark.Some? && !Fresh(mark, now)
    ensures now - mark.value.stamp > CODE_LIFESPAN_MILLIS
  {
  }

  lemma {:induction false} SentInOrder(rs: seq<Request>, j: nat)
    requires Ordered(rs) && j < |rs| && !rs[j].Fork?
    ensures InOrder(rs[j].world)
  {
    hide Run, Step;
    RunPrefix(rs, j + 1);
    var r := rs[..j + 1];
    assert r[|r| - 1] == rs[j];
  }

  // The mails sent in the entries from a up to b.
  function MailsIn(log: seq<Entry>, a: nat, b: nat): seq<Mail>
    requires a <= b <= |log|
    decreases b - a
  {
    if a == b then []
    else MailsIn(log, a, b - 1) + if log[b - 1].sent.Some? then [log[b - 1].sent.value] else []
  }

  // The last mail of a stretch, found in the log.
  lemma {:induction false} LastMailIn(log: seq<Entry>, a: nat, b: nat) returns (i: nat)
    requires a <= b <= |log| && MailsIn(log, a, b) != []
    ensures a <= i < b && log[i].sent == Some(MailsIn(log, a, b)[|MailsIn(log, a, b)| - 1])
    ensures forall k :: i < k < b ==> log[k].sent.None?
    decreases b - a
  {
    if log[b - 1].sent.Some? {
      i := b - 1;
    } else {
      assert MailsIn(log, a, b) == MailsIn(log, a, b - 1) + [];
      i := LastMailIn(log, a, b - 1);
    }
  }

  // However many challenges, wrong codes, forks and failed mails there are, k mails in a stretch
  // without a success span more than k - 1 lifespans: from the first send to the last stamp at
  // least (k - 1) * 300001 milliseconds.
  lemma {:induction false} SendRate(rs: seq<Request>, a: nat, b: nat)
    requires Ordered(rs) && a <= b <= |rs| && NoSuccess(Run(rs).1, a, b)
    ensures var mails := MailsIn(Run(rs).1, a, b);
            |mails| > 0 ==> mails[|mails| - 1].sentAt - mails[0].sentAt >= (|mails| - 1) * 300_001
    decreases b - a
  {
    hide Run, Ordered, Step, MailsIn, Fresh, Mark;
    var log := Run(rs).1;
    if a == b {
      NoMails(log, a);
    } else {
      SendRate(rs, a, b - 1);
      MailsStep(log, a, b);
      var before := MailsIn(log, a, b - 1);
      if log[b - 1].sent.Some? && before != [] {
        var i := LastMailIn(log, a, b - 1);
        MailsApart(rs, i, b - 1);
        SentBeforeStamp(rs, i);
        var mails := MailsIn(log, a, b);
        assert mails[0] == before[0] && mails[|mails| - 1] == log[b - 1].sent.value;
      }
    }
  }

  lemma NoMails(log: seq<Entry>, a: nat)
    requires a <= |log|
    ensures MailsIn(log, a, a) == []
  {
  }

  lemma MailsStep(log: seq<Entry>, a: nat, b: nat)
    requires a < b <= |log|
    ensures MailsIn(log, a, b)
         == MailsIn(log, a, b - 1) + if log[b - 1].sent.Some? then [log[b - 1].sent.value] else []
  {
  }

  lemma {:induction false} SentBeforeStamp(rs: seq<Request>, i: nat)
    requires Ordered(rs) && i < |rs| && Run(rs).1[i].sent.Some?
    ensures Run(rs).1[i].sent.value.sentAt <= Run(rs).1[i].sent.value.stamp
  {
    hide Run, Ordered, Fresh, Mark;
    if rs[i].Fork? { ForkIsQuiet(rs, i); }
    DecidedAt(rs, i);
    SentInOrder(rs, i);
  }
}
