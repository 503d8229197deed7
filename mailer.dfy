/** The send path: the pre-checks and the message `_send_email_smtp` builds,
    and the subject line `send_last_ai_output` derives from the last answer.
    The SMTP settings are an input record and the SMTP session itself (connect,
    STARTTLS, login, send) is a function parameter. */
module Mailer {
  import opened Basics
  import opened Text
  import Recipients

  /** The five SMTP environment variables; `None` where one is unset. */
  datatype SmtpEnv = SmtpEnv(
    host: Option<string>,
    port: Option<string>,
    user: Option<string>,
    password: Option<string>,
    from: Option<string>)

  const DefaultPort := "587"
  const MaxSubjectLength := 120
  const FallbackSubject := "News Summary"

  /** Python truthiness of an optional string. */
  predicate Present(v: Option<string>) {
    v.Some? && v.value != []
  }

  /** `os.getenv("SMTP_FROM") or user`. */
  function FromAddress(env: SmtpEnv): (r: Option<string>)
    ensures Present(r) <==> Present(env.from) || Present(env.user)
  {
    if Present(env.from) then env.from else env.user
  }

  /** `int(os.getenv("SMTP_PORT", "587"))`; `None` where `int` raises. */
  function Port(env: SmtpEnv): Option<int> {
    ParseInt(env.port.GetOr(DefaultPort))
  }

  /** `host and port and user and pwd and from_addr`. */
  predicate ConfigComplete(env: SmtpEnv, port: int) {
    Present(env.host) && port != 0 && Present(env.user) && Present(env.password)
    && Present(FromAddress(env))
  }

  /** What the SMTP session is opened with. */
  datatype Connection = Connection(host: string, port: int, user: string, password: string)

  /** The `EmailMessage`: its three headers and its body. */
  datatype Envelope = Envelope(subject: string, from: string, to: string, body: string)

  /** The status strings the send path returns. */
  datatype SendStatus =
    | MissingConfig
    | NoValidAddresses
    | Sent(count: nat)
    | SendFailed(cause: string)
    | NoAiOutput

  function StatusText(st: SendStatus): string {
    match st
    case MissingConfig => "\U{274C} Missing SMTP config in .env (SMTP_HOST/PORT/USER/PASS/SMTP_FROM)."
    case NoValidAddresses => "\U{274C} No valid email addresses."
    case Sent(n) => "\U{2705} Sent to " + NatToString(n) + " recipient(s)."
    case SendFailed(cause) => "\U{274C} Send failed: " + cause
    case NoAiOutput => "\U{274C} No AI output yet. Ask the assistant to summarize/translate first."
  }

  /** What the send path raises instead of returning a status: `int` on a
      malformed port, and the `IndexError` of an answer that is all whitespace. */
  datatype SendError = PortNotAnInteger | NoSubjectLine

  /** The status returned, and the message handed to the SMTP session if one
      was built. */
  datatype Delivery = Delivery(status: SendStatus, message: Option<Envelope>)

  /** The SMTP session: `None` when the message was sent, otherwise the text
      of the exception it raised. */
  type Transport = (Connection, Envelope) -> Option<string>

  /** `", ".join(recipients)`. */
  function ToHeader(recipients: seq<string>): string {
    Join(recipients, ", ")
  }

  /** `_send_email_smtp(subject, body, recipients)`. */
  function SendEmailSmtp(subject: string, body: string, recipients: seq<string>, env: SmtpEnv,
                         transport: Transport): Result<Delivery, SendError>
  {
    match Port(env)
    case None => Err(PortNotAnInteger)
    case Some(port) =>
      if !ConfigComplete(env, port) then Ok(Delivery(MissingConfig, None))
      else if recipients == [] then Ok(Delivery(NoValidAddresses, None))
      else
        var msg := Envelope(subject, FromAddress(env).value, ToHeader(recipients), body);
        var conn := Connection(env.host.value, port, env.user.value, env.password.value);
        match transport(conn, msg)
        case None => Ok(Delivery(Sent(|recipients|), Some(msg)))
        case Some(cause) => Ok(Delivery(SendFailed(cause), Some(msg)))
  }

  /** Position of the first line boundary in `s`, or `|s|`. */
  function LineEnd(s: string): (i: nat)
    ensures i <= |s|
    ensures i < |s| ==> IsLineBreak(s[i])
    ensures forall k :: 0 <= k < i ==> !IsLineBreak(s[k])
  {
    if s == [] || IsLineBreak(s[0]) then 0 else 1 + LineEnd(s[1..])
  }

  /** `s.splitlines()[0]` for a non-empty `s`. */
  function FirstLine(s: string): string {
    s[..LineEnd(s)]
  }

  /** `(resp.strip().splitlines()[0] or "News Summary")[:120]`. */
  function Subject(resp: string): Result<string, SendError> {
    var t := Strip(resp);
    if t == [] then Err(NoSubjectLine)
    else
      var line := FirstLine(t);
      Ok(Take(if line != [] then line else FallbackSubject, MaxSubjectLength))
  }

  /** `send_last_ai_output` once the recipients are parsed: the check for an
      answer, the subject, then `_send_email_smtp` with the whole answer as body. */
  function SendLastAiOutput(resp: string, recipients: seq<string>, env: SmtpEnv,
                            transport: Transport): Result<Delivery, SendError>
  {
    if resp == [] then Ok(Delivery(NoAiOutput, None))
    else
      match Subject(resp)
      case Err(e) => Err(e)
      case Ok(subject) => SendEmailSmtp(subject, resp, recipients, env, transport)
  }

  // ---------------------------------------------------------------------
  // Properties
  // ---------------------------------------------------------------------

  /** Every line boundary of `splitlines` is whitespace to `strip`. */
  lemma LineBreakIsSpace(c: char)
    ensures IsLineBreak(c) ==> IsSpace(c)
  {
  }

  /** The subject exists exactly when the answer is not all whitespace; it is
      then a non-empty prefix of the stripped answer of at most 120 characters
      with no line boundary in it, so the "News Summary" fallback is never
      taken; a one-line stripped answer of at most 120 characters is the
      subject itself. */
  lemma SubjectShape(resp: string)
    ensures Subject(resp).Err? <==> Strip(resp) == []
    ensures Subject(resp).Ok? ==>
      var s, t := Subject(resp).value, Strip(resp);
      && s != [] && |s| <= MaxSubjectLength
      && |s| <= |t| && s == t[..|s|]
      && (forall k :: 0 <= k < |s| ==> !IsLineBreak(s[k]))
      && (|s| < MaxSubjectLength ==> |s| == |t| || IsLineBreak(t[|s|]))
    ensures Subject(resp).Ok? && LineEnd(Strip(resp)) == |Strip(resp)| && |Strip(resp)| <= MaxSubjectLength
      ==> Subject(resp).value == Strip(resp)
  {
    var t := Strip(resp);
    if t != [] {
      var front := TrimStart(resp, IsSpace);
      TrimStartShape(resp, IsSpace);
      TrimEndShape(front, IsSpace);
      assert t[0] == front[0];
      LineBreakIsSpace(t[0]);
      assert LineEnd(t) > 0;
    }
  }

  /** The port is checked first, then the configuration, then the recipient
      list; no message is built and no session opened unless all three pass. */
  lemma PreChecksFirst(subject: string, body: string, recipients: seq<string>, env: SmtpEnv,
                       transport: Transport)
    ensures SendEmailSmtp(subject, body, recipients, env, transport).Err? <==> Port(env).None?
    ensures Port(env).Some? && !ConfigComplete(env, Port(env).value) ==>
      SendEmailSmtp(subject, body, recipients, env, transport) == Ok(Delivery(MissingConfig, None))
    ensures Port(env).Some? && ConfigComplete(env, Port(env).value) && recipients == [] ==>
      SendEmailSmtp(subject, body, recipients, env, transport) == Ok(Delivery(NoValidAddresses, None))
    ensures var r := SendEmailSmtp(subject, body, recipients, env, transport);
      r.Ok? && r.value.message.Some? <==>
        Port(env).Some? && ConfigComplete(env, Port(env).value) && recipients != []
  {
  }

  /** A built message carries the subject, the sender (SMTP_FROM or else the
      user), the recipients joined by ", " and the body; the status reports
      either the number of recipients or the session's exception. */
  lemma MessageContents(subject: string, body: string, recipients: seq<string>, env: SmtpEnv,
                        transport: Transport)
    requires Port(env).Some? && ConfigComplete(env, Port(env).value) && recipients != []
    ensures var r := SendEmailSmtp(subject, body, recipients, env, transport);
      var from := if Present(env.from) then env.from.value else env.user.value;
      var msg := Envelope(subject, from, ToHeader(recipients), body);
      var conn := Connection(env.host.value, Port(env).value, env.user.value, env.password.value);
      && r.Ok? && r.value.message == Some(msg)
      && (r.value.status == Sent(|recipients|) <==> transport(conn, msg).None?)
      && (r.value.status.SendFailed? <==> transport(conn, msg).Some?)
      && (transport(conn, msg).Some? ==> r.value.status.cause == transport(conn, msg).value)
  {
  }

  /** Without an answer the status says so, whatever the settings and
      recipients; with one, the body is the answer itself. */
  lemma SendLastAiOutputChecks(resp: string, recipients: seq<string>, env: SmtpEnv, transport: Transport)
    ensures resp == [] ==> SendLastAiOutput(resp, recipients, env, transport) == Ok(Delivery(NoAiOutput, None))
    ensures resp != [] && Strip(resp) == [] ==> SendLastAiOutput(resp, recipients, env, transport) == Err(NoSubjectLine)
    ensures var r := SendLastAiOutput(resp, recipients, env, transport);
      r.Ok? && r.value.message.Some? ==>
        r.value.message.value.body == resp && Subject(resp) == Ok(r.value.message.value.subject)
  {
    SubjectShape(resp);
  }

  // ---------------------------------------------------------------------
  // The To header parsed again
  // ---------------------------------------------------------------------

  /** The tokens `re.split(r"[,\n;]+", ", ".join(xs))` yields: each but the
      first keeps the blank after its comma. */
  function Indented(xs: seq<string>): (r: seq<string>)
    ensures |r| == |xs| && forall k :: 0 <= k < |xs| ==> r[k] == [' '] + xs[k]
  {
    if xs == [] then [] else [[' '] + xs[0]] + Indented(xs[1..])
  }

  lemma JoinCons(x: string, ys: seq<string>, sep: string)
    ensures Join([x] + ys, sep) == if ys == [] then x else x + sep + Join(ys, sep)
  {
    assert ([x] + ys)[1..] == ys;
  }

  lemma {:induction false} JoinIndented(a: string, xs: seq<string>)
    ensures Join([a] + xs, ", ") == Join([a] + Indented(xs), [','])
    decreases |xs|
  {
    JoinCons(a, xs, ", ");
    JoinCons(a, Indented(xs), [',']);
    if xs != [] {
      var b, rest := xs[0], xs[1..];
      assert xs == [b] + rest;
      assert Indented(xs) == [[' '] + b] + Indented(rest);
      JoinIndented(b, rest);
      JoinPrefixHead([' '], b, Indented(rest), [',']);
      var j := Join(xs, ", ");
      assert Join(Indented(xs), [',']) == [' '] + j;
      assert a + ", " + j == a + [','] + ([' '] + j);
    }
  }

  lemma JoinPrefixHead(c: string, x: string, ys: seq<string>, sep: string)
    ensures Join([c + x] + ys, sep) == c + Join([x] + ys, sep)
  {
    JoinCons(c + x, ys, sep);
    JoinCons(x, ys, sep);
    if ys != [] {
      var j := Join(ys, sep);
      assert (c + x) + sep + j == c + (x + sep + j);
    }
  }

  lemma {:induction false} MatchingAll(ts: seq<string>)
    requires forall k :: 0 <= k < |ts| ==> MatchesEmailRegexStripped(ts[k])
    ensures Recipients.Matching(ts) == Recipients.Wrap(ts)
  {
    if ts != [] {
      var n := |ts| - 1;
      assert forall k :: 0 <= k < n ==> ts[..n][k] == ts[k];
      MatchingAll(ts[..n]);
    }
  }

  predicate MatchesEmailRegexStripped(x: string) {
    Recipients.MatchesEmailRegex(Strip(x))
  }

  /** An address list the extractor can return, as far as the To header is
      concerned: each address matches in full, holds no `,`, newline or `;`,
      and no two are equal ignoring case. */
  predicate HeaderSafe(rs: seq<string>) {
    && (forall k :: 0 <= k < |rs| ==> Recipients.StrictMatch(rs[k]) && Recipients.DelimiterFree(rs[k]))
    && Recipients.CaseDistinct(rs)
  }

  /** The tokens of the To header of `rs`. */
  function HeaderTokens(rs: seq<string>): (ts: seq<string>)
    requires rs != []
    ensures |ts| == |rs| && ts[0] == rs[0]
    ensures forall k :: 0 < k < |rs| ==> ts[k] == [' '] + rs[k]
  {
    [rs[0]] + Indented(rs[1..])
  }

  /** One address of a To header, with or without the blank before it, is a
      delimiter-free token that matches once stripped and cleans back to the
      address. */
  lemma HeaderToken(r: string, t: string)
    requires Recipients.StrictMatch(r) && Recipients.DelimiterFree(r)
    requires t == r || t == [' '] + r
    ensures Recipients.DelimiterFree(t) && t != [] && MatchesEmailRegexStripped(t)
    ensures Recipients.Clean(Some(t)) == r && Recipients.Admissible(r)
  {
    Recipients.StrictMatchHasNoSpace(r);
    assert r != [] by { assert !Recipients.Scan(Recipients.Start, []); }
    assert !IsListSeparator(r[0]) && !IsListSeparator(r[|r| - 1]) by {
      assert !Recipients.IsDelimiter(r[0]) && !Recipients.IsDelimiter(r[|r| - 1]);
    }
    if t == r {
      Recipients.CleanOfPlain(r);
    } else {
      Recipients.StripLeadingBlank(r);
      assert forall i :: 1 <= i < |t| ==> t[i] == r[i - 1];
    }
  }

  lemma ToHeaderCandidates(rs: seq<string>)
    requires rs != [] && HeaderSafe(rs)
    ensures Recipients.Candidates(None, Some(ToHeader(rs))) == Recipients.Wrap(HeaderTokens(rs))
  {
    var ts := HeaderTokens(rs);
    var h := ToHeader(rs);
    assert rs == [rs[0]] + rs[1..];
    JoinIndented(rs[0], rs[1..]);
    assert h == Join(ts, [',']);
    forall k | 0 <= k < |rs|
      ensures Recipients.DelimiterFree(ts[k]) && ts[k] != [] && MatchesEmailRegexStripped(ts[k])
    {
      HeaderToken(rs[k], ts[k]);
    }
    Recipients.SplitJoin(ts, ',');
    assert Recipients.SplitDelimited(h) == ts;
    MatchingAll(ts);
    Recipients.PastedIsDelimited(h);
  }

  /** Pasting the To header of a message back into the recipients box gives
      the same recipients, in the same order. */
  lemma ToHeaderRoundTrip(rs: seq<string>)
    requires HeaderSafe(rs)
    ensures Recipients.ExtractRecipients(None, Some(ToHeader(rs))) == rs
  {
    if rs == [] {
      assert ToHeader(rs) == [];
      assert Recipients.Candidates(None, Some(ToHeader(rs))) == [];
    } else {
      var ts := HeaderTokens(rs);
      ToHeaderCandidates(rs);
      var items := Recipients.Wrap(ts);
      forall k | 0 <= k < |rs|
        ensures Recipients.Clean(items[k]) == rs[k] && Recipients.Admissible(rs[k])
      {
        HeaderToken(rs[k], ts[k]);
      }
      Recipients.NormalizeKeepsCleaned(items, rs);
    }
  }
}
