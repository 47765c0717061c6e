/**
 * The server route that receives a job application (`POST /api/applications`).
 * It runs a fixed chain of checks, each of which can end the request with a
 * typed failure: the CAPTCHA token, the Turnstile verdict, the required
 * fields, the e-mail pattern, the file sizes, the mail password, the SMTP
 * connection, and finally the delivery of the composed mail. Anything thrown
 * on the way ends in the catch-all server error.
 *
 * The outside services are replies handed in with the request: what
 * Turnstile answers, whether the SMTP connection verifies and whether the
 * mail is accepted. A run records the calls made to those services, so
 * "this step is never reached" is a statement about the recorded calls.
 *
 * `Submit` states the whole pipeline as one function; `Post` follows the
 * handler's structure, a sequence of early returns with the file probing
 * loop and the size loop, and is proved to compute `Submit`. Both choose the
 * translation table with `SelectTable`, which differs from the lookup as
 * written (`TableAsWritten`) on names inherited from `Object.prototype`.
 */
module Route {
  import opened Strings
  import opened EmailPattern
  import opened Multipart

  // ---------------------------------------------------------------------
  // Translations

  datatype Lang = Pl | En

  /** The keys of the mail translations. */
  datatype Key =
    | NewApplication | UsernameLabel | EmailLabel | PositionLabel | WhyPosition
    | GdprConsentLabel | SentDate | Yes | No | AllFieldsRequired | InvalidEmail
    | FileTooLarge | SmtpError | SuccessMessage | ServerError | SubjectLine

  /** The two translation tables. */
  function Translate(t: Lang, k: Key): string {
    match t
    case Pl =>
      (match k
       case NewApplication => "Nowa aplikacja rekrutacyjna"
       case UsernameLabel => "Nazwa użytkownika"
       case EmailLabel => "Email"
       case PositionLabel => "Stanowisko"
       case WhyPosition => "Dlaczego wybrałem to stanowisko"
       case GdprConsentLabel => "Zgoda RODO"
       case SentDate => "Data wysłania"
       case Yes => "TAK"
       case No => "NIE"
       case AllFieldsRequired => "Wszystkie pola są wymagane"
       case InvalidEmail => "Nieprawidłowy format adresu email"
       case FileTooLarge => "Rozmiar pliku nie może przekraczać 10MB"
       case SmtpError => "Błąd konfiguracji serwera email"
       case SuccessMessage => "Aplikacja została pomyślnie wysłana"
       case ServerError => "Błąd serwera podczas wysyłania aplikacji"
       case SubjectLine => "Nowa aplikacja na stanowisko")
    case En =>
      (match k
       case NewApplication => "New job application"
       case UsernameLabel => "Username"
       case EmailLabel => "Email"
       case PositionLabel => "Position"
       case WhyPosition => "Why I chose this position"
       case GdprConsentLabel => "GDPR Consent"
       case SentDate => "Sent date"
       case Yes => "YES"
       case No => "NO"
       case AllFieldsRequired => "All fields are required"
       case InvalidEmail => "Invalid email format"
       case FileTooLarge => "File size cannot exceed 10MB"
       case SmtpError => "Email server configuration error"
       case SuccessMessage => "Application sent successfully"
       case ServerError => "Server error while sending application"
       case SubjectLine => "New application for position")
  }

  /** The names an object literal inherits from `Object.prototype`: looking
      one of them up in the translations object finds a truthy value that is
      not a table. */
  const PrototypeNames: set<string> := {
    "constructor", "__proto__", "__defineGetter__", "__defineSetter__",
    "__lookupGetter__", "__lookupSetter__", "hasOwnProperty", "isPrototypeOf",
    "propertyIsEnumerable", "toLocaleString", "toString", "valueOf"
  }

  /** What `translations[language] || translations.pl` yields as written. */
  datatype Lookup = Table(lang: Lang) | NotATable

  function TableAsWritten(language: string): Lookup {
    if language == "pl" then Table(Pl)
    else if language == "en" then Table(En)
    else if language in PrototypeNames then NotATable
    else Table(Pl)
  }

  /** The table lookup as intended: `en` selects English, anything else
      falls back to Polish. */
  function SelectTable(language: string): Lang {
    if language == "en" then En else Pl
  }

  /** The intended lookup agrees with the code on every language except the
      inherited property names. */
  lemma SelectTableAgreesOffPrototype(language: string)
    ensures language !in PrototypeNames ==> TableAsWritten(language) == Table(SelectTable(language))
    ensures SelectTable(language) == En <==> language == "en"
  {
  }

  /** As written, `language=toString` selects no table at all, so every
      message the route would send is `undefined`; the intended lookup
      gives the Polish table. */
  lemma InheritedNameSelectsNoTable()
    ensures TableAsWritten("toString") == NotATable
    ensures TableAsWritten("__proto__") == NotATable
    ensures SelectTable("toString") == Pl
  {
  }

  // ---------------------------------------------------------------------
  // Requests, services, outcomes

  /** The request as the route sees it: a multipart body, or a body that
      `req.formData()` cannot parse. */
  datatype Request = FormPost(body: Body) | Unreadable(detail: string)

  /** What Turnstile answers: a verdict, or a failure to reach it or to read
      its answer (a thrown `fetch` or `json`). */
  datatype CaptchaReply = Verdict(success: bool) | Unreachable(detail: string)

  /** What the SMTP transport answers to `verify` or `sendMail`. */
  datatype SmtpReply = Accepted | Refused(detail: string)

  datatype Services = Services(captcha: CaptchaReply, verify: SmtpReply, send: SmtpReply)

  /** The process environment: `EMAIL_PASSWORD` and `RECRUITMENT_EMAIL`. */
  datatype Env = Env(emailPassword: Option<string>, recruitmentEmail: Option<string>)

  /** An environment variable is truthy: set and not empty. */
  predicate Configured(v: Option<string>) {
    v.Some? && v.value != ""
  }

  datatype Attachment = Attachment(filename: string, content: seq<byte>)

  /** The values the HTML body interpolates; its labels come from `table`.
      `rationale` is the text with line feeds turned into `<br>`. */
  datatype MailBody = MailBody(
    table: Lang, username: string, email: string, position: string,
    rationale: string, consent: string, dateLocale: string, language: string,
    attachedCount: nat)

  datatype Mail = Mail(from: string, to: string, subject: string, html: MailBody,
                       attachments: seq<Attachment>)

  /** A call to an outside service, in the order the route makes them. */
  datatype Call = VerifyCaptcha(token: string) | VerifySmtp | SendMail(mail: Mail)

  /** The cause of an exception that the catch-all turns into a server error. */
  datatype Crash =
    | BodyUnreadable(detail: string)
    | CaptchaUnreachable(detail: string)
    | AttachmentNotAFile   // `file.arrayBuffer` on a string part
    | RationaleNotText     // `whyThisPosition.replace` on a file part
    | LanguageNotText      // `language.toUpperCase` on a file part

  datatype Failure =
    | NoToken | CaptchaFailed | MissingFields | BadEmail | FileOversize
    | NoPassword | SmtpUnverified(detail: string) | SendFailed(detail: string)
    | Crashed(crash: Crash)

  /** A response message: a translation, or a fixed text of the route. */
  datatype Message = Localized(table: Lang, key: Key) | Literal(text: string)

  datatype Outcome = Delivered(mail: Mail, message: Message) | Rejected(failure: Failure, error: Message)

  datatype Run = Run(outcome: Outcome, calls: seq<Call>)

  /** The fixed texts of the route's own failures, which are not translated. */
  const NoTokenText: string := "Brak tokena CAPTCHA"
  const CaptchaFailedText: string := "Weryfikacja CAPTCHA nie powiodła się"
  const NoPasswordText: string := "Missing EMAIL_PASSWORD configuration"

  /** The failure response with the message the route attaches to it. */
  function Reject(f: Failure, t: Lang): Outcome {
    match f
    case NoToken => Rejected(f, Literal(NoTokenText))
    case CaptchaFailed => Rejected(f, Literal(CaptchaFailedText))
    case MissingFields => Rejected(f, Localized(t, AllFieldsRequired))
    case BadEmail => Rejected(f, Localized(t, InvalidEmail))
    case FileOversize => Rejected(f, Localized(t, FileTooLarge))
    case NoPassword => Rejected(f, Literal(NoPasswordText))
    case SmtpUnverified(_) => Rejected(f, Localized(t, SmtpError))
    case SendFailed(_) => Rejected(f, Localized(t, SmtpError))
    case Crashed(_) => Rejected(f, Localized(Pl, ServerError))
  }

  /** The `error` or `message` text of the JSON response. */
  function Wording(m: Message): string {
    match m
    case Localized(t, k) => Translate(t, k)
    case Literal(text) => text
  }

  /** The HTTP status of the response. */
  function Status(o: Outcome): nat {
    match o
    case Delivered(_, _) => 200
    case Rejected(f, _) =>
      if f.NoToken? || f.CaptchaFailed? || f.MissingFields? || f.BadEmail? || f.FileOversize?
      then 400 else 500
  }

  /** Every failure response has a non-empty `error` text and a status
      other than 200, so the page reads it as a failure with a message. */
  lemma RejectIsWorded(f: Failure, t: Lang)
    ensures Reject(f, t).Rejected? && Reject(f, t).failure == f
    ensures Wording(Reject(f, t).error) != ""
    ensures Status(Reject(f, t)) in {400, 500}
  {
  }

  // ---------------------------------------------------------------------
  // Reading the form

  /** The named fields as the route reads them. */
  datatype Fields = Fields(
    username: Option<Entry>, email: Option<Entry>, position: Option<Entry>,
    why: Option<Entry>, gdprConsent: bool, language: Entry, token: Option<Entry>)

  function ReadFields(body: Body): Fields {
    var language := Get(body, "language");
    Fields(
      Get(body, "username"), Get(body, "email"), Get(body, "position"),
      Get(body, "whyThisPosition"),
      Get(body, "gdprConsent") == Some(Text("true")),
      if Falsy(language) then Text("pl") else language.value,
      Get(body, "turnstileToken"))
  }

  /** A missing or empty `language` field reads as `pl`. */
  lemma LanguageDefaultsToPl(body: Body)
    requires Falsy(Get(body, "language"))
    ensures ReadFields(body).language == Text("pl")
    ensures SelectTable(Str(ReadFields(body).language)) == Pl
  {
  }

  // ---------------------------------------------------------------------
  // Validation

  /** A part the size loop rejects: only files have a size; a string part's
      `size` is `undefined` and never compares greater. */
  predicate TooBig(e: Entry) {
    e.Upload? && Oversize(e.file)
  }

  predicate WithinLimit(files: seq<Entry>) {
    forall k :: 0 <= k < |files| ==> !TooBig(files[k])
  }

  /** Some required field is falsy, consent is not `'true'`, or no file was found. */
  predicate Incomplete(f: Fields, files: seq<Entry>) {
    Falsy(f.username) || Falsy(f.email) || Falsy(f.position) || Falsy(f.why)
    || !f.gdprConsent || |files| == 0
  }

  /** The three validation rules, checked in this order; the first that
      fails names the failure. */
  function Validate(f: Fields, files: seq<Entry>): Option<Failure> {
    if Incomplete(f, files) then Some(MissingFields)
    else if !MatchesPattern(Str(f.email.value)) then Some(BadEmail)
    else if !WithinLimit(files) then Some(FileOversize)
    else None
  }

  // ---------------------------------------------------------------------
  // Composing the mail

  /** `files.map(file => ({ filename: file.name, content: … }))`, which throws
      when a part is not a file. */
  function Attach(files: seq<Entry>): (r: Option<seq<Attachment>>)
    ensures r.Some? <==> forall k :: 0 <= k < |files| ==> files[k].Upload?
    ensures r.Some? ==> |r.value| == |files|
    ensures r.Some? ==> forall k :: 0 <= k < |files| ==>
      r.value[k] == Attachment(files[k].file.name, files[k].file.content)
  {
    if files == [] then Some([])
    else if !files[0].Upload? then None
    else
      match Attach(files[1..])
      case None => None
      case Some(rest) => Some([Attachment(files[0].file.name, files[0].file.content)] + rest)
  }

  /** The locale the sent date is formatted in. */
  function DateLocale(language: Entry): string {
    if language == Text("pl") then "pl-PL" else "en-GB"
  }

  /** The sender of every application mail. */
  const Sender: string := "Formularz Rekrutacyjny - Klovy Chat <support@klovy.org>"

  /** The recipient when `RECRUITMENT_EMAIL` is not set (or empty). */
  const DefaultRecipient: string := "recruitment@klovy.org"

  /** The mail the route sends. Requires the parts that the template literal
      would otherwise throw on to be present and to be strings. */
  function ComposeMail(f: Fields, t: Lang, env: Env, files: seq<Entry>, atts: seq<Attachment>): Mail
    requires f.username.Some? && f.email.Some? && f.position.Some?
    requires f.why.Some? && f.why.value.Text? && f.language.Text?
  {
    var to := if Configured(env.recruitmentEmail) then env.recruitmentEmail.value
              else DefaultRecipient;
    Mail(
      Sender,
      to,
      Translate(t, SubjectLine) + ": " + Str(f.position.value),
      MailBody(
        t, Str(f.username.value), Str(f.email.value), Str(f.position.value),
        ReplaceNewlines(f.why.value.text, "<br>"),
        Translate(t, if f.gdprConsent then Yes else No),
        DateLocale(f.language), f.language.text, |files|),
      atts)
  }

  // ---------------------------------------------------------------------
  // The pipeline

  /** The whole route as one function of the request, the environment and
      the services' replies. */
  function Submit(req: Request, env: Env, svc: Services): Run {
    match req
    case Unreadable(d) => Run(Reject(Crashed(BodyUnreadable(d)), Pl), [])
    case FormPost(body) =>
      var f := ReadFields(body);
      if Falsy(f.token) then Run(Reject(NoToken, Pl), [])
      else
        var calls := [VerifyCaptcha(Str(f.token.value))];
        match svc.captcha
        case Unreachable(d) => Run(Reject(Crashed(CaptchaUnreachable(d)), Pl), calls)
        case Verdict(ok) =>
          if !ok then Run(Reject(CaptchaFailed, Pl), calls)
          else
            var t := SelectTable(Str(f.language));
            var files := Discovered(body);
            match Validate(f, files)
            case Some(failure) => Run(Reject(failure, t), calls)
            case None => Transmit(f, t, files, env, svc, calls)
  }

  /** The steps after validation: password, SMTP verify, attachments, mail
      composition and delivery. */
  function Transmit(f: Fields, t: Lang, files: seq<Entry>, env: Env, svc: Services, calls: seq<Call>): Run
    requires !Incomplete(f, files)
  {
    if !Configured(env.emailPassword) then
      Run(Reject(NoPassword, t), calls)
    else
      var calls := calls + [VerifySmtp];
      match svc.verify
      case Refused(d) => Run(Reject(SmtpUnverified(d), t), calls)
      case Accepted =>
        match Attach(files)
        case None => Run(Reject(Crashed(AttachmentNotAFile), t), calls)
        case Some(atts) =>
          if !f.why.value.Text? then Run(Reject(Crashed(RationaleNotText), t), calls)
          else if !f.language.Text? then Run(Reject(Crashed(LanguageNotText), t), calls)
          else
            var mail := ComposeMail(f, t, env, files, atts);
            var calls := calls + [SendMail(mail)];
            match svc.send
            case Refused(d) => Run(Reject(SendFailed(d), t), calls)
            case Accepted => Run(Delivered(mail, Localized(t, SuccessMessage)), calls)
  }

  // ---------------------------------------------------------------------
  // The handler

  /** The probing loop `for (let i = 1; ; i++)`: reads `file1`, `file2`, …
      and stops at the first falsy one. */
  method DiscoverFiles(body: Body) returns (files: seq<Entry>)
    ensures files == Discovered(body)
  {
    files := [];
    var i := 1;
    while true
      invariant i == |files| + 1
      invariant FoundSoFar(body, files)
      decreases Unprobed(body, i)
    {
      var file := Get(body, FileKey(i));
      if Falsy(file) {
        break;
      }
      assert Probe(body, i) == Some(file.value);
      FoundOneMore(body, files, file.value);
      ProbeShrinks(body, i);
      files := files + [file.value];
      i := i + 1;
    }
    assert IsProbeRun(body, 1, files);
    ProbeRunUnique(body, 1, files, Discovered(body));
  }

  /** The size loop `for (const file of files)`, which leaves at the first
      file over 10 MiB. */
  method CheckSizes(files: seq<Entry>) returns (ok: bool)
    ensures ok <==> forall k :: 0 <= k < |files| ==> !(files[k].Upload? && Size(files[k].file) > 10 * 1024 * 1024)
  {
    for k := 0 to |files|
      invariant forall m :: 0 <= m < k ==> !TooBig(files[m])
    {
      if files[k].Upload? && Size(files[k].file) > MaxFileSize {
        return false;
      }
    }
    return true;
  }

  /** `POST`: the handler's early returns in the source's order. */
  method Post(req: Request, env: Env, svc: Services) returns (run: Run)
    ensures run == Submit(req, env, svc)
  {
    if req.Unreadable? {
      return Run(Reject(Crashed(BodyUnreadable(req.detail)), Pl), []);
    }
    var body := req.body;
    var f := ReadFields(body);
    if Falsy(f.token) {
      return Run(Reject(NoToken, Pl), []);
    }
    var calls := [VerifyCaptcha(Str(f.token.value))];
    if svc.captcha.Unreachable? {
      return Run(Reject(Crashed(CaptchaUnreachable(svc.captcha.detail)), Pl), calls);
    }
    if !svc.captcha.success {
      return Run(Reject(CaptchaFailed, Pl), calls);
    }
    var t := SelectTable(Str(f.language));
    var files := DiscoverFiles(body);
    if Incomplete(f, files) {
      return Run(Reject(MissingFields, t), calls);
    }
    if !MatchesPattern(Str(f.email.value)) {
      return Run(Reject(BadEmail, t), calls);
    }
    var small := CheckSizes(files);
    if !small {
      return Run(Reject(FileOversize, t), calls);
    }
    if !Configured(env.emailPassword) {
      return Run(Reject(NoPassword, t), calls);
    }
    calls := calls + [VerifySmtp];
    if svc.verify.Refused? {
      return Run(Reject(SmtpUnverified(svc.verify.detail), t), calls);
    }
    var atts := Attach(files);
    if atts.None? {
      return Run(Reject(Crashed(AttachmentNotAFile), t), calls);
    }
    if !f.why.value.Text? {
      return Run(Reject(Crashed(RationaleNotText), t), calls);
    }
    if !f.language.Text? {
      return Run(Reject(Crashed(LanguageNotText), t), calls);
    }
    var mail := ComposeMail(f, t, env, files, atts.value);
    calls := calls + [SendMail(mail)];
    if svc.send.Refused? {
      return Run(Reject(SendFailed(svc.send.detail), t), calls);
    }
    return Run(Delivered(mail, Localized(t, SuccessMessage)), calls);
  }

  // ---------------------------------------------------------------------
  // Properties of the steps after validation

  /** After validation the route can fail only for want of a password, for
      the SMTP transport or by crashing, and each failure carries the
      message `Reject` gives it and the status 500. The calls made so far
      are kept. */
  lemma TransmitFailures(f: Fields, t: Lang, files: seq<Entry>, env: Env, svc: Services, calls: seq<Call>)
    requires !Incomplete(f, files)
    ensures var run := Transmit(f, t, files, env, svc, calls);
      run.outcome.Rejected? ==>
        && run.outcome == Reject(run.outcome.failure, t)
        && (run.outcome.failure.NoPassword? || run.outcome.failure.SmtpUnverified?
            || run.outcome.failure.SendFailed? || run.outcome.failure.Crashed?)
        && Status(run.outcome) == 500
  {
    if Configured(env.emailPassword) && svc.verify.Accepted? && Attach(files).Some?
       && f.why.value.Text? && f.language.Text? {
      var mail := ComposeMail(f, t, env, files, Attach(files).value);
    }
  }

  /** A mail goes out only with a password, a verified connection, files
      that are all files and a rationale and language that are strings; it
      is the composed mail and it is the last call. */
  lemma TransmitSends(f: Fields, t: Lang, files: seq<Entry>, env: Env, svc: Services, calls: seq<Call>, m: Mail)
    requires !Incomplete(f, files)
    requires forall c :: c in calls ==> !c.SendMail?
    requires SendMail(m) in Transmit(f, t, files, env, svc, calls).calls
    ensures Configured(env.emailPassword) && svc.verify == Accepted
    ensures Attach(files).Some? && f.why.value.Text? && f.language.Text?
    ensures m == ComposeMail(f, t, env, files, Attach(files).value)
    ensures Transmit(f, t, files, env, svc, calls).calls == calls + [VerifySmtp, SendMail(m)]
  {
  }

  /** A delivery is the composed mail, sent after the SMTP check, answered
      200 with the success message of the selected table. */
  lemma TransmitDelivers(f: Fields, t: Lang, files: seq<Entry>, env: Env, svc: Services, calls: seq<Call>)
    requires !Incomplete(f, files)
    requires Transmit(f, t, files, env, svc, calls).outcome.Delivered?
    ensures Attach(files).Some? && f.why.value.Text? && f.language.Text?
    ensures var run := Transmit(f, t, files, env, svc, calls);
      && run.outcome == Delivered(ComposeMail(f, t, env, files, Attach(files).value), Localized(t, SuccessMessage))
      && run.calls == calls + [VerifySmtp, SendMail(run.outcome.mail)]
      && svc.send == Accepted
      && Status(run.outcome) == 200
  {
  }

  // ---------------------------------------------------------------------
  // Properties of the pipeline

  /** Without a token (absent or empty) the route answers 400 with its fixed
      Polish message and calls no outside service. */
  lemma MissingTokenStopsEverything(body: Body, env: Env, svc: Services)
    requires Falsy(Get(body, "turnstileToken"))
    ensures Submit(FormPost(body), env, svc) == Run(Rejected(NoToken, Literal("Brak tokena CAPTCHA")), [])
    ensures Status(Submit(FormPost(body), env, svc).outcome) == 400
  {
  }

  /** A CAPTCHA that Turnstile rejects ends the request with 400 after the
      one verification call: no SMTP connection, no mail. */
  lemma CaptchaRejectionStopsMail(body: Body, env: Env, svc: Services)
    requires !Falsy(Get(body, "turnstileToken")) && svc.captcha == Verdict(false)
    ensures var run := Submit(FormPost(body), env, svc);
      && run.outcome == Rejected(CaptchaFailed, Literal("Weryfikacja CAPTCHA nie powiodła się"))
      && Status(run.outcome) == 400
      && run.calls == [VerifyCaptcha(Str(Get(body, "turnstileToken").value))]
  {
  }

  /** The common premise of the validation lemmas: a token and a CAPTCHA
      that Turnstile accepts. */
  predicate PastCaptcha(body: Body, svc: Services) {
    !Falsy(Get(body, "turnstileToken")) && svc.captcha == Verdict(true)
  }

  /** Past the CAPTCHA, a request that fails validation is rejected with
      that failure after the one verification call, and one that passes
      goes on to the steps after validation. */
  lemma AfterValidation(body: Body, env: Env, svc: Services)
    requires PastCaptcha(body, svc)
    ensures var f, files := ReadFields(body), Discovered(body);
      var t := SelectTable(Str(f.language));
      var calls := [VerifyCaptcha(Str(f.token.value))];
      Submit(FormPost(body), env, svc)
        == match Validate(f, files)
           case Some(failure) => Run(Reject(failure, t), calls)
           case None => Transmit(f, t, files, env, svc, calls)
  {
  }

  /** Whatever the request, a refusal carries the message that `Reject`
      attaches to its failure, in one of the two tables. */
  lemma RejectionsCarryTheirMessage(req: Request, env: Env, svc: Services)
    ensures var o := Submit(req, env, svc).outcome;
      o.Rejected? ==> o == Reject(o.failure, Pl) || o == Reject(o.failure, En)
  {
    if req.FormPost? {
      var body := req.body;
      var f := ReadFields(body);
      if !Falsy(f.token) && svc.captcha == Verdict(true) {
        AfterValidation(body, env, svc);
        var files := Discovered(body);
        if Validate(f, files).None? {
          TransmitFailures(f, SelectTable(Str(f.language)), files, env, svc, [VerifyCaptcha(Str(f.token.value))]);
        }
      }
    }
  }

  /** A missing field, a consent other than `'true'` or no `file1` is
      reported as missing fields, whatever the e-mail and the sizes. */
  lemma IncompleteComesFirst(body: Body, env: Env, svc: Services)
    requires PastCaptcha(body, svc)
    requires Incomplete(ReadFields(body), Discovered(body))
    ensures var run := Submit(FormPost(body), env, svc);
      && run.outcome == Rejected(MissingFields, Localized(SelectTable(Str(ReadFields(body).language)), AllFieldsRequired))
      && Status(run.outcome) == 400 && |run.calls| == 1
  {
  }

  /** With every field present, the address is refused exactly when it is
      not well shaped: one `@`, a non-empty local part, an inner `.` in the
      domain and no whitespace. That refusal is a 400. */
  lemma EmailCheckedSecond(body: Body, env: Env, svc: Services)
    requires PastCaptcha(body, svc)
    requires !Incomplete(ReadFields(body), Discovered(body))
    ensures var run := Submit(FormPost(body), env, svc);
      && ((run.outcome.Rejected? && run.outcome.failure == BadEmail)
            <==> !WellShaped(Str(ReadFields(body).email.value)))
      && (run.outcome.Rejected? && run.outcome.failure == BadEmail ==> Status(run.outcome) == 400)
  {
    var f, files := ReadFields(body), Discovered(body);
    PatternIffShape(Str(f.email.value));
    AfterValidation(body, env, svc);
    if Validate(f, files).None? {
      TransmitFailures(f, SelectTable(Str(f.language)), files, env, svc, [VerifyCaptcha(Str(f.token.value))]);
    }
  }

  /** With the fields complete and the address valid, the request is refused
      as too large exactly when some file exceeds 10 MiB; a file of exactly
      10 MiB passes. */
  lemma SizeCheckedThird(body: Body, env: Env, svc: Services)
    requires PastCaptcha(body, svc)
    requires !Incomplete(ReadFields(body), Discovered(body))
    requires MatchesPattern(Str(ReadFields(body).email.value))
    ensures var run := Submit(FormPost(body), env, svc);
      && (run.outcome.Rejected? && run.outcome.failure == FileOversize
          <==> exists k :: 0 <= k < |Discovered(body)| && Discovered(body)[k].Upload?
                           && Size(Discovered(body)[k].file) > 10485760)
      && (run.outcome.Rejected? && run.outcome.failure == FileOversize ==> Status(run.outcome) == 400)
  {
    var f, files := ReadFields(body), Discovered(body);
    var t := SelectTable(Str(f.language));
    AfterValidation(body, env, svc);
    if WithinLimit(files) {
      assert Validate(f, files).None?;
      TransmitFailures(f, t, files, env, svc, [VerifyCaptcha(Str(f.token.value))]);
    } else {
      assert Validate(f, files) == Some(FileOversize);
      var k :| 0 <= k < |files| && TooBig(files[k]);
      assert Size(files[k].file) > 10485760;
    }
  }

  /** Past the CAPTCHA, the route answers in English exactly when the form
      says `en`; anything else, including no language at all, gets Polish.
      A crash answers in Polish whatever the form says. */
  lemma AnswersInFormLanguage(body: Body, env: Env, svc: Services)
    requires PastCaptcha(body, svc)
    ensures var run := Submit(FormPost(body), env, svc);
      var t := if Get(body, "language") == Some(Text("en")) then En else Pl;
      && (run.outcome.Delivered? ==> run.outcome.message == Localized(t, SuccessMessage))
      && (run.outcome.Rejected? && run.outcome.error.Localized? && !run.outcome.failure.Crashed?
          ==> run.outcome.error.table == t)
      && (run.outcome.Rejected? && run.outcome.failure.Crashed?
          ==> run.outcome.error == Localized(Pl, ServerError) && Status(run.outcome) == 500)
  {
    AfterValidation(body, env, svc);
    var f, files := ReadFields(body), Discovered(body);
    var t := SelectTable(Str(f.language));
    assert t == if Get(body, "language") == Some(Text("en")) then En else Pl;
    if Validate(f, files).None? {
      var calls := [VerifyCaptcha(Str(f.token.value))];
      TransmitFailures(f, t, files, env, svc, calls);
      if Transmit(f, t, files, env, svc, calls).outcome.Delivered? {
        TransmitDelivers(f, t, files, env, svc, calls);
      }
    }
  }

  /** The composed mail carries the form's values: the subject line of the
      table followed by the position, the rationale line by line joined
      with `<br>` and free of line feeds, the consent as the table's "yes",
      the language as sent with the date in Polish form exactly for `pl`
      (so `de` gets Polish labels but an English date), and the attachments
      in order with their names and bytes. */
  lemma ComposedMailContents(f: Fields, t: Lang, env: Env, files: seq<Entry>, atts: seq<Attachment>)
    requires f.username.Some? && f.email.Some? && f.position.Some?
    requires f.why.Some? && f.why.value.Text? && f.language.Text? && f.gdprConsent
    requires Attach(files) == Some(atts)
    ensures var mail := ComposeMail(f, t, env, files, atts);
      && mail.subject == Translate(t, SubjectLine) + ": " + Str(f.position.value)
      && mail.html.username == Str(f.username.value) && mail.html.email == Str(f.email.value)
      && mail.html.rationale == Join(Lines(f.why.value.text), "<br>")
      && '\n' !in mail.html.rationale
      && mail.html.consent == Translate(t, Yes)
      && mail.html.language == f.language.text
      && (mail.html.dateLocale == "pl-PL" <==> f.language == Text("pl"))
      && (mail.html.dateLocale != "pl-PL" ==> mail.html.dateLocale == "en-GB")
      && mail.html.attachedCount == |mail.attachments| == |files|
      && forall k :: 0 <= k < |files| ==>
           mail.attachments[k] == Attachment(files[k].file.name, files[k].file.content)
  {
    JoinedLines(f.why.value.text, "<br>");
  }

  /** What a delivered application carries: the fields as sent, the subject
      line of the selected table, the rationale line by line joined with
      `<br>` and free of line feeds, and the attachments in the order of
      their indexes with their names and bytes. The route has made exactly
      three calls, the last of them the delivery of this mail. */
  lemma DeliveredMailCarriesTheApplication(body: Body, env: Env, svc: Services)
    ensures var f, files := ReadFields(body), Discovered(body);
      var t := SelectTable(Str(f.language));
      var run := Submit(FormPost(body), env, svc);
      run.outcome.Delivered? ==>
      var mail := run.outcome.mail;
      && Validate(f, files).None? && f.why.value.Text?
      && run.calls == [VerifyCaptcha(Str(f.token.value)), VerifySmtp, SendMail(mail)]
      && run.outcome.message == Localized(t, SuccessMessage) && Status(run.outcome) == 200
      && mail.subject == Translate(t, SubjectLine) + ": " + Str(f.position.value)
      && mail.html.username == Str(f.username.value) && mail.html.email == Str(f.email.value)
      && mail.html.rationale == Join(Lines(f.why.value.text), "<br>")
      && '\n' !in mail.html.rationale
      && mail.html.consent == Translate(t, Yes)
      && 1 <= mail.html.attachedCount == |mail.attachments| == |files|
      && (forall k :: 0 <= k < |files| ==> Probe(body, k + 1) == Some(files[k]))
      && (forall k :: 0 <= k < |files| ==>
            mail.attachments[k] == Attachment(files[k].file.name, files[k].file.content))
  {
    if Submit(FormPost(body), env, svc).outcome.Delivered? {
      var f, files := ReadFields(body), Discovered(body);
      var t := SelectTable(Str(f.language));
      var calls := [VerifyCaptcha(Str(f.token.value))];
      AfterValidation(body, env, svc);
      assert Validate(f, files).None?;
      TransmitDelivers(f, t, files, env, svc, calls);
      ComposedMailContents(f, t, env, files, Attach(files).value);
      DiscoveredInOrder(body);
    }
  }

  /** A mail is sent only for a request that passed every check: a readable
      body, an accepted CAPTCHA, valid fields, files within the limit, a
      configured password and a verified SMTP connection. */
  lemma MailOnlyAfterEveryCheck(req: Request, env: Env, svc: Services, m: Mail)
    ensures SendMail(m) in Submit(req, env, svc).calls ==>
      && req.FormPost? && svc.captcha == Verdict(true)
      && Validate(ReadFields(req.body), Discovered(req.body)).None?
      && WithinLimit(Discovered(req.body)) && MatchesPattern(m.html.email)
      && Configured(env.emailPassword) && svc.verify == Accepted
      && 1 <= |m.attachments| == |Discovered(req.body)|
  {
    if SendMail(m) in Submit(req, env, svc).calls {
      var body := req.body;
      var f, files := ReadFields(body), Discovered(body);
      AfterValidation(body, env, svc);
      TransmitSends(f, SelectTable(Str(f.language)), files, env, svc, [VerifyCaptcha(Str(f.token.value))], m);
    }
  }
}
