/**
 * The form and the route together: what the route reads from the body the
 * form posts, and what the form shows for what the route answers.
 *
 * `fetch` sends the body the form builds with the multipart/form-data
 * encoding (`Sent`): every part arrives under its name and in its place,
 * files byte for byte, and string values with each line break turned into
 * CR LF (`Wire`). But the body carries no `turnstileToken` part, and
 * the route refuses any request without one before doing anything else: as
 * written, every application the page sends is refused with "Brak tokena
 * CAPTCHA". With the token appended (`Page.EncodeWithToken`), a complete
 * form within the page's limits is delivered when the services accept it.
 */
module Protocol {
  import opened Strings
  import opened Multipart
  import EmailPattern
  import Page
  import Route

  /** The files as the route reads them: each one a file entry. */
  function Uploads(files: seq<File>): seq<Entry> {
    seq(|files|, k requires 0 <= k < |files| => Upload(files[k]))
  }

  /** What the page's `fetch` gets back from the route: `response.ok` for a
      200, and the `error` text of a failure. */
  function ReplyOf(run: Route.Run): Page.Reply {
    match run.outcome
    case Delivered(_, _) => Page.Response(true, None)
    case Rejected(_, m) => Page.Response(Route.Status(run.outcome) == 200, Some(Route.Wording(m)))
  }

  /** Parts whose names do not start with `f`, so none is an attachment name. */
  predicate NoFileNames(parts: Body) {
    forall k :: 0 <= k < |parts| ==> parts[k].key == [] || parts[k].key[0] != 'f'
  }

  /** Looking up an attachment name among the file parts finds the file
      with that index, and nothing past the last one. */
  lemma GetFilePart(files: seq<File>, i: nat)
    ensures Get(Page.FileParts(files), FileKey(i))
         == if 1 <= i <= |files| then Some(Upload(files[i - 1])) else None
  {
    var parts := Page.FileParts(files);
    if 1 <= i <= |files| {
      forall j | 0 <= j < i - 1 ensures parts[j].key != parts[i - 1].key {
        FileKeyInjective(j + 1, i);
      }
      GetAt(parts, i - 1);
    } else {
      forall j | 0 <= j < |parts| ensures parts[j].key != FileKey(i) {
        FileKeyInjective(j + 1, i);
      }
      GetMissing(parts, FileKey(i));
    }
  }

  /** A name that does not start with `f` is not among the file parts. */
  lemma NotAmongFileParts(files: seq<File>, key: string)
    requires key == [] || key[0] != 'f'
    ensures Get(Page.FileParts(files), key) == None
  {
    var parts := Page.FileParts(files);
    forall j | 0 <= j < |parts| ensures parts[j].key != key {
      NotAFileKey(key, j + 1);
    }
    GetMissing(parts, key);
  }

  /** A name that does not start with `f` is not found among such parts. */
  lemma NotAmongOthers(extra: Body, i: nat)
    requires NoFileNames(extra)
    ensures Get(extra, FileKey(i)) == None
  {
    forall j | 0 <= j < |extra| ensures extra[j].key != FileKey(i) {
      NotAFileKey(extra[j].key, i);
    }
    GetMissing(extra, FileKey(i));
  }

  /** Probing the posted body, with any parts without attachment names
      appended, finds the `i`-th file under `file{i}` and stops after the
      last. */
  lemma ProbeSubmitted(form: Page.FormData, lang: string, extra: Body, i: nat)
    requires NoFileNames(extra)
    ensures Probe(Page.Encode(form, lang) + extra, i)
         == if 1 <= i <= |form.files| then Some(Upload(form.files[i - 1])) else None
  {
    var named, files := Page.NamedParts(form, lang), Page.FileParts(form.files);
    assert Page.Encode(form, lang) + extra == named + (files + extra);
    NamedPartsHaveNoFileNames(form, lang);
    NotAmongOthers(named, i);
    GetAppend(named, files + extra, FileKey(i));
    GetAppend(files, extra, FileKey(i));
    GetFilePart(form.files, i);
    NotAmongOthers(extra, i);
  }

  /** The route finds exactly the form's files, in order, in the body
      sent. */
  lemma FilesRoundTrip(form: Page.FormData, lang: string, extra: Body)
    requires NoFileNames(extra)
    ensures Discovered(Sent(Page.Encode(form, lang) + extra)) == Uploads(form.files)
  {
    var built := Page.Encode(form, lang) + extra;
    var body := Sent(built);
    var run := Uploads(form.files);
    forall j | 0 <= j <= |run| ensures ProbeAt(body, 1, j) == if j < |run| then Some(run[j]) else None {
      ProbeSubmitted(form, lang, extra, 1 + j);
      ProbeSent(built, 1 + j);
    }
    assert IsProbeRun(body, 1, run);
    ProbeRunUnique(body, 1, run, Discovered(body));
  }

  /** The named parts have no attachment names. */
  lemma NamedPartsHaveNoFileNames(form: Page.FormData, lang: string)
    ensures NoFileNames(Page.NamedParts(form, lang))
  {
  }

  /** Each named part is found under its name; the token is not among them. */
  lemma NamedValues(form: Page.FormData, lang: string)
    ensures var named := Page.NamedParts(form, lang);
      && Get(named, "username") == Some(Text(form.username))
      && Get(named, "email") == Some(Text(form.email))
      && Get(named, "position") == Some(Text(form.position))
      && Get(named, "whyThisPosition") == Some(Text(form.whyThisPosition))
      && Get(named, "gdprConsent") == Some(Text(if form.gdprConsent then "true" else "false"))
      && Get(named, "language") == Some(Text(lang))
      && Get(named, "turnstileToken") == None
  {
    var named := Page.NamedParts(form, lang);
    GetAt(named, 0);
    GetAt(named, 1);
    GetAt(named, 2);
    GetAt(named, 3);
    GetAt(named, 4);
    GetAt(named, 5);
    GetMissing(named, "turnstileToken");
  }

  /** The token part has no attachment name. */
  lemma TokenPartIsNoFile(token: string)
    ensures NoFileNames([Part("turnstileToken", Text(token))])
  {
  }

  /** A named part is found before the file parts and whatever follows. */
  lemma GetNamed(form: Page.FormData, lang: string, extra: Body, key: string)
    requires key == [] || key[0] != 'f'
    ensures Get(Page.Encode(form, lang) + extra, key)
         == if Get(Page.NamedParts(form, lang), key).Some? then Get(Page.NamedParts(form, lang), key)
            else Get(extra, key)
  {
    var named, files := Page.NamedParts(form, lang), Page.FileParts(form.files);
    assert Page.Encode(form, lang) + extra == named + (files + extra);
    GetAppend(named, files + extra, key);
    GetAppend(files, extra, key);
    NotAmongFileParts(form.files, key);
  }

  /** The route reads back every value the form sent: the texts as typed,
      with their line breaks sent as CR LF, the consent as the checkbox was,
      the language (`pl` when empty) and the token. */
  lemma FieldsRoundTrip(form: Page.FormData, lang: string, token: string)
    ensures Route.ReadFields(Sent(Page.EncodeWithToken(form, lang, token)))
         == Route.Fields(
              Some(Text(Wire(form.username))), Some(Text(Wire(form.email))), Some(Text(Wire(form.position))),
              Some(Text(Wire(form.whyThisPosition))), form.gdprConsent,
              Text(if lang == "" then "pl" else Wire(lang)), Some(Text(Wire(token))))
  {
    var built := Page.EncodeWithToken(form, lang, token);
    GetSent(built, "username");
    GetSent(built, "email");
    GetSent(built, "position");
    GetSent(built, "whyThisPosition");
    GetSent(built, "gdprConsent");
    GetSent(built, "language");
    GetSent(built, "turnstileToken");
    WireOfPlain(if form.gdprConsent then "true" else "false", "true");
    var tok := [Part("turnstileToken", Text(token))];
    NamedValues(form, lang);
    GetNamed(form, lang, tok, "username");
    GetNamed(form, lang, tok, "email");
    GetNamed(form, lang, tok, "position");
    GetNamed(form, lang, tok, "whyThisPosition");
    GetNamed(form, lang, tok, "gdprConsent");
    GetNamed(form, lang, tok, "language");
    GetNamed(form, lang, tok, "turnstileToken");
  }

  /** As written, the route refuses every body the page posts: there is no
      token in it, so the answer is a 400 with "Brak tokena CAPTCHA" before
      any outside service is called, and the page shows that text under the
      consent checkbox. */
  lemma ShownClientAlwaysRejected(form: Page.FormData, lang: string, env: Route.Env, svc: Route.Services)
    ensures var run := Route.Submit(Route.FormPost(Sent(Page.Encode(form, lang))), env, svc);
      && run == Route.Run(Route.Rejected(Route.NoToken, Route.Literal("Brak tokena CAPTCHA")), [])
      && Route.Status(run.outcome) == 400
      && Page.FailureNotice(ReplyOf(run), lang) == Page.Reported("Brak tokena CAPTCHA")
  {
    NamedValues(form, lang);
    GetNamed(form, lang, [], "turnstileToken");
    assert Page.Encode(form, lang) + [] == Page.Encode(form, lang);
    GetSent(Page.Encode(form, lang), "turnstileToken");
  }

  /** The page shows what the route answered: a delivery reads as a
      success, and every refusal reads as a failure whose notice under the
      consent checkbox is the route's own `error` text, never the page's
      generic send error. */
  lemma PageReportsRouteAnswer(req: Route.Request, env: Route.Env, svc: Route.Services, lang: string)
    ensures var run := Route.Submit(req, env, svc);
      && (run.outcome.Delivered? ==> ReplyOf(run).ok)
      && (run.outcome.Rejected? ==>
            && !ReplyOf(run).ok
            && Page.FailureNotice(ReplyOf(run), lang) == Page.Reported(Route.Wording(run.outcome.error)))
  {
    var o := Route.Submit(req, env, svc).outcome;
    if o.Rejected? {
      Route.RejectionsCarryTheirMessage(req, env, svc);
      Route.RejectIsWorded(o.failure, Route.Pl);
      Route.RejectIsWorded(o.failure, Route.En);
    }
  }

  /** A complete form's address is sent unchanged: it has no whitespace,
      so no line break. */
  lemma SentAddressUnchanged(form: Page.FormData)
    requires Page.Complete(form)
    ensures Wire(form.email) == form.email
  {
    Page.CompleteAddressIsWellShaped(form);
    assert NoBreaks(form.email) by {
      forall k | 0 <= k < |form.email| ensures form.email[k] != '\r' && form.email[k] != '\n' {
        assert !IsWhitespace(form.email[k]);
      }
    }
    WireOfPlain(form.email, form.email);
  }

  /** The language as sent names the same table as the page's language:
      only `en`, which has no line break, is sent as `en`. */
  lemma SentLanguageSelectsSameTable(lang: string)
    ensures Route.SelectTable(if lang == "" then "pl" else Wire(lang)) == Route.SelectTable(lang)
  {
    WireOfPlain(lang, "en");
  }

  /** The route finds every file of a form sent with its token, and none
      of them is over the route's limit when the form is within the page's. */
  lemma SentFilesWithinLimit(form: Page.FormData, lang: string, token: string)
    requires Page.Bounded(form)
    ensures var files := Discovered(Sent(Page.EncodeWithToken(form, lang, token)));
      && files == Uploads(form.files)
      && Route.WithinLimit(files)
  {
    TokenPartIsNoFile(token);
    FilesRoundTrip(form, lang, [Part("turnstileToken", Text(token))]);
    var files := Uploads(form.files);
    forall k | 0 <= k < |files| ensures !Route.TooBig(files[k]) {
      assert files[k] == Upload(form.files[k]);
    }
  }

  /** The fields the route reads from a complete form, and files within
      the page's limits, pass every validation step of the route. */
  lemma CompleteFormValidates(form: Page.FormData, f: Route.Fields, files: seq<Entry>)
    requires Page.Complete(form)
    requires f.username == Some(Text(Wire(form.username))) && f.email == Some(Text(form.email))
    requires f.position == Some(Text(Wire(form.position))) && f.why == Some(Text(Wire(form.whyThisPosition)))
    requires f.gdprConsent
    requires files == Uploads(form.files) && Route.WithinLimit(files)
    ensures Route.Validate(f, files).None?
  {
    assert EmailPattern.MatchesPattern(Str(f.email.value));
  }

  /** A complete form within the page's limits, sent with a token, passes
      every validation step of the route, and the route finds its files. */
  lemma SentApplicationIsValid(form: Page.FormData, lang: string, token: string)
    requires Page.Complete(form) && Page.Bounded(form) && token != ""
    ensures var body := Sent(Page.EncodeWithToken(form, lang, token));
      && Discovered(body) == Uploads(form.files)
      && Route.Validate(Route.ReadFields(body), Discovered(body)).None?
  {
    var body := Sent(Page.EncodeWithToken(form, lang, token));
    FieldsRoundTrip(form, lang, token);
    SentAddressUnchanged(form);
    SentLanguageSelectsSameTable(lang);
    SentFilesWithinLimit(form, lang, token);
    CompleteFormValidates(form, Route.ReadFields(body), Discovered(body));
  }

  /** A valid application, with working services and a configured
      password, is delivered as the mail the route composes from what it
      read, in the table of the page's language. */
  lemma SentApplicationDelivered(form: Page.FormData, lang: string, token: string,
                                 env: Route.Env, svc: Route.Services)
    requires Page.Complete(form) && Page.Bounded(form) && token != ""
    requires svc == Route.Services(Route.Verdict(true), Route.Accepted, Route.Accepted)
    requires Route.Configured(env.emailPassword)
    ensures var body := Sent(Page.EncodeWithToken(form, lang, token));
      var f, files := Route.ReadFields(body), Discovered(body);
      var t := Route.SelectTable(lang);
      && f.username.Some? && f.email.Some? && f.position.Some?
      && f.why.Some? && f.why.value.Text? && f.language.Text? && f.gdprConsent
      && Route.Attach(files).Some?
      && Route.Submit(Route.FormPost(body), env, svc).outcome
         == Route.Delivered(Route.ComposeMail(f, t, env, files, Route.Attach(files).value),
                            Route.Localized(t, Route.SuccessMessage))
  {
    var body := Sent(Page.EncodeWithToken(form, lang, token));
    FieldsRoundTrip(form, lang, token);
    SentAddressUnchanged(form);
    SentLanguageSelectsSameTable(lang);
    SentApplicationIsValid(form, lang, token);
    Route.AfterValidation(body, env, svc);
    var atts := Route.Attach(Discovered(body));
    assert atts.Some?;
  }

  /** With the token appended, a complete form within the page's limits,
      a CAPTCHA Turnstile accepts, a configured password and an SMTP server
      that accepts the mail give a delivery: the mail carries the position
      in its subject, the address as typed, the rationale as sent with
      `<br>` for each line feed and every file in order, and the page gets a
      successful reply. */
  lemma TokenedClientDelivered(form: Page.FormData, lang: string, token: string,
                               env: Route.Env, svc: Route.Services)
    requires Page.Complete(form) && Page.Bounded(form) && token != ""
    requires svc == Route.Services(Route.Verdict(true), Route.Accepted, Route.Accepted)
    requires Route.Configured(env.emailPassword)
    ensures var run := Route.Submit(Route.FormPost(Sent(Page.EncodeWithToken(form, lang, token))), env, svc);
      var t := Route.SelectTable(lang);
      && run.outcome.Delivered?
      && run.outcome.message == Route.Localized(t, Route.SuccessMessage)
      && run.outcome.mail.subject == Route.Translate(t, Route.SubjectLine) + ": " + Wire(form.position)
      && run.outcome.mail.html.email == form.email
      && run.outcome.mail.html.rationale == ReplaceNewlines(Wire(form.whyThisPosition), "<br>")
      && |run.outcome.mail.attachments| == |form.files|
      && (forall k :: 0 <= k < |form.files| ==>
            run.outcome.mail.attachments[k] == Route.Attachment(form.files[k].name, form.files[k].content))
      && ReplyOf(run) == Page.Response(true, None)
  {
    var body := Sent(Page.EncodeWithToken(form, lang, token));
    FieldsRoundTrip(form, lang, token);
    SentAddressUnchanged(form);
    SentLanguageSelectsSameTable(lang);
    SentFilesWithinLimit(form, lang, token);
    SentApplicationDelivered(form, lang, token, env, svc);
    var f, files := Route.ReadFields(body), Discovered(body);
    Route.ComposedMailContents(f, Route.SelectTable(lang), env, files, Route.Attach(files).value);
    JoinedLines(Wire(form.whyThisPosition), "<br>");
  }
}
