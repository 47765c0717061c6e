/**
 * The application form of the browser page: its state (the form values,
 * the error messages per field, whether the application was sent, the
 * language and the stored language preference) and the handlers that
 * change it. Validation, the combination of chosen files, the removal of a
 * file, the choice of the first language and the multipart encoding of a
 * submission are specified as functions; the handlers are methods of the
 * `ApplicationForm` class proved to update the state as those functions
 * say, while keeping the form within its limits: at most ten files, none
 * over 10 MiB, and a rationale of at most 1000 characters.
 */
module Page {
  import opened Strings
  import opened EmailPattern
  import opened Multipart

  /** The values the form holds. */
  datatype FormData = FormData(
    username: string, email: string, position: string, files: seq<File>,
    whyThisPosition: string, gdprConsent: bool)

  /** The form as it starts and as `resetForm` leaves it. */
  function EmptyForm(): FormData {
    FormData("", "", "", [], "", false)
  }

  /** The most files one application may carry. */
  const MaxFiles: nat := 10

  /** The most characters the rationale may have. */
  const MaxRationale: nat := 1000

  /** The limits the form keeps: at most ten files, none over 10 MiB, and a
      rationale of at most 1000 characters. */
  predicate Bounded(form: FormData) {
    && |form.files| <= MaxFiles
    && (forall k :: 0 <= k < |form.files| ==> !Oversize(form.files[k]))
    && |form.whyThisPosition| <= MaxRationale
  }

  // ---------------------------------------------------------------------
  // Error messages

  /** The keys of `FormErrors`: one per field that can show an error. */
  datatype Slot = Username | Email | Position | Cv | CoverLetter | GdprConsent

  /** The error texts of the form's translation tables. */
  datatype ClientKey =
    | ErrorUsername | ErrorEmail | ErrorEmailInvalid | ErrorPosition | ErrorFiles
    | ErrorWhy | ErrorGdpr | ErrorSend | FileTooLarge | TooManyFiles

  /** An error text: an entry of the table of the language shown when it
      was set, or a text that came back with a failed submission. */
  datatype Notice = Translated(lang: string, key: ClientKey) | Reported(text: string)

  /** Whether the page shows the error: every table entry is a non-empty
      text; a reported text is shown unless it is empty. */
  predicate Shown(n: Notice) {
    n.Translated? || n.text != ""
  }

  /** `if (errors[slot]) setErrors(prev => ({ ...prev, [slot]: undefined }))`:
      a shown error of the slot is cleared, anything else stays. */
  function Clear(errors: map<Slot, Notice>, slot: Slot): (r: map<Slot, Notice>)
    ensures slot in r ==> !Shown(r[slot])
    ensures forall s :: s in errors && s != slot ==> s in r && r[s] == errors[s]
    ensures r.Keys <= errors.Keys
  {
    if slot in errors && Shown(errors[slot]) then errors - {slot} else errors
  }

  // ---------------------------------------------------------------------
  // Validation

  const AllSlots: set<Slot> := {Username, Email, Position, Cv, CoverLetter, GdprConsent}

  /** The rule `validateForm` applies to one slot, and the error it sets
      there when the rule is broken. A value fails `!value.trim()` exactly
      when it is blank (see `Trim`). */
  function RuleFor(form: FormData, lang: string, slot: Slot): (r: Option<Notice>)
    ensures r.Some? ==> r.value.Translated? && r.value.lang == lang
  {
    match slot
    case Username =>
      if Blank(form.username) then Some(Translated(lang, ErrorUsername)) else None
    case Email =>
      if Blank(form.email) then Some(Translated(lang, ErrorEmail))
      else if !MatchesPattern(form.email) then Some(Translated(lang, ErrorEmailInvalid))
      else None
    case Position =>
      if form.position == "" then Some(Translated(lang, ErrorPosition)) else None
    case Cv =>
      if form.files == [] then Some(Translated(lang, ErrorFiles)) else None
    case CoverLetter =>
      if Blank(form.whyThisPosition) then Some(Translated(lang, ErrorWhy)) else None
    case GdprConsent =>
      if !form.gdprConsent then Some(Translated(lang, ErrorGdpr)) else None
  }

  /** The errors of the broken rules among `slots`: what `validateForm`
      has set once it has checked those slots. */
  function ErrorsAmong(form: FormData, lang: string, slots: set<Slot>): map<Slot, Notice> {
    map s | s in slots && RuleFor(form, lang, s).Some? :: RuleFor(form, lang, s).value
  }

  /** The errors `validateForm` sets, in the language `lang`: every broken
      rule, and nothing else. */
  function ErrorsFor(form: FormData, lang: string): map<Slot, Notice> {
    ErrorsAmong(form, lang, AllSlots)
  }

  /** Checking one more slot sets its error when its rule is broken and
      leaves the errors of the slots checked before alone. */
  lemma CheckOneMore(form: FormData, lang: string, slots: set<Slot>, slot: Slot)
    requires slot !in slots
    ensures ErrorsAmong(form, lang, slots + {slot})
         == if RuleFor(form, lang, slot).Some?
            then ErrorsAmong(form, lang, slots)[slot := RuleFor(form, lang, slot).value]
            else ErrorsAmong(form, lang, slots)
  {
  }

  /** A form the page lets through: a username and a rationale that are not
      blank, an address the e-mail pattern accepts, a chosen position, at
      least one file and the consent ticked. */
  predicate Complete(form: FormData) {
    && !Blank(form.username)
    && MatchesPattern(form.email)
    && form.position != ""
    && form.files != []
    && !Blank(form.whyThisPosition)
    && form.gdprConsent
  }

  /** Each slot holds an error exactly when its rule is broken, and the
      error is the one the rule names; the address gets exactly one of its
      two errors, "required" when blank and "invalid" otherwise. */
  lemma ErrorsForSlots(form: FormData, lang: string)
    ensures var e := ErrorsFor(form, lang);
      && (Username in e <==> Blank(form.username))
      && (Email in e <==> !MatchesPattern(form.email))
      && (Position in e <==> form.position == "")
      && (Cv in e <==> form.files == [])
      && (CoverLetter in e <==> Blank(form.whyThisPosition))
      && (GdprConsent in e <==> !form.gdprConsent)
      && (forall s :: s in e ==> e[s].Translated? && e[s].lang == lang)
      && (Email in e ==> e[Email].key == if Blank(form.email) then ErrorEmail else ErrorEmailInvalid)
  {
    var e := ErrorsFor(form, lang);
    if Blank(form.email) {
      BlankNeverMatches(form.email);
    }
    InErrorsFor(form, lang, Username);
    InErrorsFor(form, lang, Email);
    InErrorsFor(form, lang, Position);
    InErrorsFor(form, lang, Cv);
    InErrorsFor(form, lang, CoverLetter);
    InErrorsFor(form, lang, GdprConsent);
    forall s | s in e ensures e[s].Translated? && e[s].lang == lang {
      InErrorsFor(form, lang, s);
    }
  }

  /** A slot holds an error exactly when its rule sets one, and holds that one. */
  lemma InErrorsFor(form: FormData, lang: string, s: Slot)
    ensures s in ErrorsFor(form, lang) <==> RuleFor(form, lang, s).Some?
    ensures s in ErrorsFor(form, lang) ==> ErrorsFor(form, lang)[s] == RuleFor(form, lang, s).value
  {
    assert s in AllSlots by {
      match s
      case Username =>
      case Email =>
      case Position =>
      case Cv =>
      case CoverLetter =>
      case GdprConsent =>
    }
  }

  /** The address of a complete form has exactly one `@`, a non-empty local
      part, an inner `.` in its domain and no whitespace. */
  lemma CompleteAddressIsWellShaped(form: FormData)
    requires Complete(form)
    ensures WellShaped(form.email) && !Blank(form.email)
  {
    PatternIffShape(form.email);
    if Blank(form.email) {
      BlankNeverMatches(form.email);
    }
  }

  /** `validateForm` succeeds exactly for a complete form. */
  lemma NoErrorsIffComplete(form: FormData, lang: string)
    ensures ErrorsFor(form, lang) == map[] <==> Complete(form)
  {
    ErrorsForSlots(form, lang);
    var e := ErrorsFor(form, lang);
    if e == map[] {
      assert Username !in e && Email !in e && Position !in e;
      assert Cv !in e && CoverLetter !in e && GdprConsent !in e;
    } else {
      var s :| s in e;
      InErrorsFor(form, lang, s);
    }
  }

  /** The body of `validateForm`: each rule in turn, setting its error
      when it is broken. */
  method CollectErrors(form: FormData, lang: string) returns (next: map<Slot, Notice>)
    ensures next == ErrorsFor(form, lang)
  {
    next := map[];
    ghost var checked: set<Slot> := {};
    var blank := TrimsToEmpty(form.username);
    if blank {
      next := next[Username := Translated(lang, ErrorUsername)];
    }
    CheckOneMore(form, lang, checked, Username);
    checked := checked + {Username};
    blank := TrimsToEmpty(form.email);
    if blank {
      next := next[Email := Translated(lang, ErrorEmail)];
    } else if !MatchesPattern(form.email) {
      next := next[Email := Translated(lang, ErrorEmailInvalid)];
    }
    CheckOneMore(form, lang, checked, Email);
    checked := checked + {Email};
    if form.position == "" {
      next := next[Position := Translated(lang, ErrorPosition)];
    }
    CheckOneMore(form, lang, checked, Position);
    checked := checked + {Position};
    if form.files == [] {
      next := next[Cv := Translated(lang, ErrorFiles)];
    }
    CheckOneMore(form, lang, checked, Cv);
    checked := checked + {Cv};
    blank := TrimsToEmpty(form.whyThisPosition);
    if blank {
      next := next[CoverLetter := Translated(lang, ErrorWhy)];
    }
    CheckOneMore(form, lang, checked, CoverLetter);
    checked := checked + {CoverLetter};
    if !form.gdprConsent {
      next := next[GdprConsent := Translated(lang, ErrorGdpr)];
    }
    CheckOneMore(form, lang, checked, GdprConsent);
    checked := checked + {GdprConsent};
    assert checked == AllSlots;
  }

  // ---------------------------------------------------------------------
  // Form values

  /** The text fields and the select of the form, by their `name`. */
  datatype TextField = UsernameField | EmailField | PositionField | WhyField

  /** A change event: a new value of a text field or select, or the consent
      checkbox ticked or cleared. */
  datatype Change = Typed(field: TextField, value: string) | Ticked(checked: bool)

  /** `value.slice(0, n)`. */
  function Truncate(s: string, n: nat): (r: string)
    ensures r <= s && |r| == (if |s| <= n then |s| else n)
  {
    if |s| <= n then s else s[..n]
  }

  /** The form after a change event: the rationale keeps its first 1000
      characters, every other value is taken as it is. */
  function Apply(form: FormData, c: Change): FormData {
    match c
    case Ticked(b) => form.(gdprConsent := b)
    case Typed(UsernameField, v) => form.(username := v)
    case Typed(EmailField, v) => form.(email := v)
    case Typed(PositionField, v) => form.(position := v)
    case Typed(WhyField, v) => form.(whyThisPosition := Truncate(v, MaxRationale))
  }

  /** The error slot named like the control that changed. The rationale's
      control is named `whyThisPosition`, which is no key of `FormErrors`, so
      typing in it clears nothing. */
  function SlotNamed(c: Change): Option<Slot> {
    match c
    case Ticked(_) => Some(GdprConsent)
    case Typed(UsernameField, _) => Some(Username)
    case Typed(EmailField, _) => Some(Email)
    case Typed(PositionField, _) => Some(Position)
    case Typed(WhyField, _) => None
  }

  /** A change event keeps the form within its limits and changes only the
      value of its own control. */
  lemma ApplyKeepsBounds(form: FormData, c: Change)
    requires Bounded(form)
    ensures Bounded(Apply(form, c))
    ensures Apply(form, c).files == form.files
    ensures c.Typed? && c.field == WhyField ==>
      Apply(form, c).whyThisPosition <= c.value
      && |Apply(form, c).whyThisPosition| == (if |c.value| <= MaxRationale then |c.value| else MaxRationale)
  {
  }

  // ---------------------------------------------------------------------
  // Files

  /** `newFiles.some(f => f.size > 10 * 1024 * 1024)`. */
  predicate AnyOversize(files: seq<File>) {
    exists k :: 0 <= k < |files| && Oversize(files[k])
  }

  /** `[...prev, ...added].slice(0, 10)`: the files already chosen, then the
      new ones, cut at ten. */
  function Combine(prev: seq<File>, added: seq<File>): (r: seq<File>)
    ensures |r| <= MaxFiles && r <= prev + added
    ensures |r| == if |prev| + |added| <= MaxFiles then |prev| + |added| else MaxFiles
    ensures |prev| <= MaxFiles ==> prev <= r
  {
    var all := prev + added;
    if |all| <= MaxFiles then all else all[..MaxFiles]
  }

  /** `files.filter((_, i) => i !== index)`, walked from the front. */
  function Without(files: seq<File>, index: int): (r: seq<File>)
    ensures 0 <= index < |files| ==> r == files[..index] + files[index + 1..]
    ensures !(0 <= index < |files|) ==> r == files
  {
    if files == [] then []
    else
      var rest := Without(files[1..], index - 1);
      if index == 0 then rest else [files[0]] + rest
  }

  /** Every file the form keeps came from one of the lists it was given. */
  lemma CombineDrawsFrom(prev: seq<File>, added: seq<File>)
    requires forall k :: 0 <= k < |prev| ==> !Oversize(prev[k])
    requires !AnyOversize(added)
    ensures forall k :: 0 <= k < |Combine(prev, added)| ==> !Oversize(Combine(prev, added)[k])
  {
    var r := Combine(prev, added);
    forall k | 0 <= k < |r| ensures !Oversize(r[k]) {
      assert r[k] == (prev + added)[k];
      if k >= |prev| {
        assert r[k] == added[k - |prev|];
      }
    }
  }

  // ---------------------------------------------------------------------
  // Language

  /** The language the page settles on once it runs in the browser: a
      stored, non-empty preference wins; otherwise Polish when the browser's
      language tag starts with `pl` in any letter case, English if not. */
  function InitialLanguage(stored: Option<string>, browserLanguage: string): string {
    if stored.Some? && stored.value != "" then stored.value
    else if StartsWith(Lower(browserLanguage), "pl") then "pl"
    else "en"
  }

  /** The choice spelled out letter by letter, and its stability: once
      stored, the chosen language is chosen again whatever the browser says. */
  lemma InitialLanguageChoice(stored: Option<string>, browserLanguage: string, later: string)
    ensures var l := InitialLanguage(stored, browserLanguage);
      && (stored.Some? && stored.value != "" ==> l == stored.value)
      && (!(stored.Some? && stored.value != "") ==>
            && (l == "pl" || l == "en")
            && (l == "pl" <==>
                  (|browserLanguage| >= 2
                   && (browserLanguage[0] == 'p' || browserLanguage[0] == 'P')
                   && (browserLanguage[1] == 'l' || browserLanguage[1] == 'L'))))
      && InitialLanguage(Some(l), later) == l
  {
    var low := Lower(browserLanguage);
    if |browserLanguage| >= 2 {
      assert low[..2] == [low[0], low[1]];
      assert "pl" == ['p', 'l'];
    }
  }

  // ---------------------------------------------------------------------
  // Encoding a submission

  /** The named parts of a submission, in the order they are appended. No
      `turnstileToken` part is among them. */
  function NamedParts(form: FormData, lang: string): Body {
    [ Part("username", Text(form.username)),
      Part("email", Text(form.email)),
      Part("position", Text(form.position)),
      Part("whyThisPosition", Text(form.whyThisPosition)),
      Part("gdprConsent", Text(if form.gdprConsent then "true" else "false")),
      Part("language", Text(lang)) ]
  }

  /** The file parts: the `k`-th file under `file{k+1}`. */
  function FileParts(files: seq<File>): Body {
    seq(|files|, k requires 0 <= k < |files| => Part(FileKey(k + 1), Upload(files[k])))
  }

  /** The body `handleSubmit` posts. */
  function Encode(form: FormData, lang: string): Body {
    NamedParts(form, lang) + FileParts(form.files)
  }

  /** The body with the CAPTCHA token the route asks for appended. */
  function EncodeWithToken(form: FormData, lang: string, token: string): Body {
    Encode(form, lang) + [Part("turnstileToken", Text(token))]
  }

  /** Builds the body the way `handleSubmit` does: the named parts, then one
      part per file in the `forEach` loop. */
  method EncodeSubmission(form: FormData, lang: string) returns (body: Body)
    ensures body == Encode(form, lang)
  {
    var named := NamedParts(form, lang);
    body := named;
    for k := 0 to |form.files|
      invariant body == named + FileParts(form.files[..k])
    {
      assert FileParts(form.files[..k + 1]) == FileParts(form.files[..k]) + [Part(FileKey(k + 1), Upload(form.files[k]))];
      body := body + [Part(FileKey(k + 1), Upload(form.files[k]))];
    }
    assert form.files[..|form.files|] == form.files;
  }

  // ---------------------------------------------------------------------
  // Submitting

  /** What a submission comes back with: a response, with its `ok` flag and
      the `error` text of its JSON body, or an exception (a network failure
      or a body that is not JSON) with its message. */
  datatype Reply = Response(ok: bool, error: Option<string>) | Thrown(message: string)

  /** The error the page shows under the consent checkbox after a failed
      submission: the server's error text when it is not empty, otherwise
      the generic send error; an exception's own message. */
  function FailureNotice(reply: Reply, lang: string): Notice {
    match reply
    case Thrown(m) => Reported(m)
    case Response(_, error) =>
      if error.Some? && error.value != "" then Reported(error.value) else Translated(lang, ErrorSend)
  }

  // ---------------------------------------------------------------------
  // The form component

  class ApplicationForm {
    var formData: FormData
    var errors: map<Slot, Notice>
    var isSubmitted: bool
    /** The language shown. */
    var lang: string
    var isHydrated: bool
    /** The `preferred-language` entry of the browser's local storage. */
    var stored: Option<string>

    ghost predicate Valid()
      reads this
    {
      Bounded(formData)
    }

    /** The first render: an empty form in Polish, before hydration. */
    constructor (storage: Option<string>)
      ensures Valid()
      ensures formData == EmptyForm() && errors == map[] && !isSubmitted
      ensures lang == "pl" && !isHydrated && stored == storage
    {
      formData := EmptyForm();
      errors := map[];
      isSubmitted := false;
      lang := "pl";
      isHydrated := false;
      stored := storage;
    }

    /** The hydration effect: settles the language and stores it when
        nothing was stored. */
    method Hydrate(browserLanguage: string)
      modifies this
      ensures isHydrated && lang == InitialLanguage(old(stored), browserLanguage)
      ensures stored == Some(lang)
      ensures formData == old(formData) && errors == old(errors) && isSubmitted == old(isSubmitted)
    {
      isHydrated := true;
      if stored.Some? && stored.value != "" {
        lang := stored.value;
      } else {
        var detected := if StartsWith(Lower(browserLanguage), "pl") then "pl" else "en";
        lang := detected;
        stored := Some(detected);
      }
    }

    /** The language switch: shows and stores the chosen language. */
    method SetLang(value: string)
      requires value == "pl" || value == "en"
      modifies this
      ensures lang == value && stored == Some(value)
      ensures formData == old(formData) && errors == old(errors)
      ensures isSubmitted == old(isSubmitted) && isHydrated == old(isHydrated)
    {
      lang := value;
      stored := Some(value);
    }

    /** `validateForm`: replaces the errors by those of the current values,
        and succeeds exactly when there are none. */
    method ValidateForm() returns (ok: bool)
      modifies this
      ensures errors == ErrorsFor(formData, lang)
      ensures ok <==> Complete(formData)
      ensures formData == old(formData) && lang == old(lang) && stored == old(stored)
      ensures isSubmitted == old(isSubmitted) && isHydrated == old(isHydrated)
    {
      var next := CollectErrors(formData, lang);
      errors := next;
      NoErrorsIffComplete(formData, lang);
      ok := |next| == 0;
      if ok {
        assert next.Keys == {};
      }
    }

    /** `handleInputChange`: takes the new value and clears a shown error of
        the field with the control's name. */
    method HandleInputChange(c: Change)
      requires Valid()
      modifies this
      ensures Valid()
      ensures formData == Apply(old(formData), c)
      ensures errors == match SlotNamed(c) case Some(s) => Clear(old(errors), s) case None => old(errors)
      ensures lang == old(lang) && stored == old(stored)
      ensures isSubmitted == old(isSubmitted) && isHydrated == old(isHydrated)
    {
      ApplyKeepsBounds(formData, c);
      formData := Apply(formData, c);
      var slot := SlotNamed(c);
      if slot.Some? && slot.value in errors && Shown(errors[slot.value]) {
        errors := errors - {slot.value};
      }
    }

    /** `handleFileChange`: refuses the whole choice when one file is over
        10 MiB; otherwise adds the files, keeps the first ten and says so
        when some were dropped, or clears a shown file error. */
    method HandleFileChange(added: seq<File>)
      requires Valid()
      modifies this
      ensures Valid()
      ensures AnyOversize(added) ==>
        formData == old(formData) && errors == old(errors)[Cv := Translated(lang, FileTooLarge)]
      ensures !AnyOversize(added) ==>
        && formData == old(formData).(files := Combine(old(formData.files), added))
        && errors == if |old(formData.files)| + |added| > MaxFiles
                     then old(errors)[Cv := Translated(lang, TooManyFiles)]
                     else Clear(old(errors), Cv)
      ensures lang == old(lang) && stored == old(stored)
      ensures isSubmitted == old(isSubmitted) && isHydrated == old(isHydrated)
    {
      if AnyOversize(added) {
        errors := errors[Cv := Translated(lang, FileTooLarge)];
        return;
      }
      var prev := formData.files;
      CombineDrawsFrom(prev, added);
      if |prev| + |added| > MaxFiles {
        errors := errors[Cv := Translated(lang, TooManyFiles)];
      } else if Cv in errors && Shown(errors[Cv]) {
        errors := errors - {Cv};
      }
      formData := formData.(files := Combine(prev, added));
    }

    /** `handleRemoveFile`: drops the file at `index` and clears a shown file
        error. */
    method HandleRemoveFile(index: int)
      requires Valid()
      modifies this
      ensures Valid()
      ensures formData == old(formData).(files := Without(old(formData.files), index))
      ensures errors == Clear(old(errors), Cv)
      ensures lang == old(lang) && stored == old(stored)
      ensures isSubmitted == old(isSubmitted) && isHydrated == old(isHydrated)
    {
      var files := formData.files;
      var kept := Without(files, index);
      assert forall k :: 0 <= k < |kept| ==> kept[k] in files;
      formData := formData.(files := kept);
      if Cv in errors && Shown(errors[Cv]) {
        errors := errors - {Cv};
      }
    }

    /** `handleSubmit`: validates; when the form is complete, posts the
        encoded body and, given what came back, shows the thank-you screen or
        the failure under the consent checkbox in place of every other
        error. Returns the body posted, if any. */
    method HandleSubmit(reply: Reply) returns (sent: Option<Body>)
      requires Valid()
      modifies this
      ensures Valid() && formData == old(formData)
      ensures lang == old(lang) && stored == old(stored) && isHydrated == old(isHydrated)
      ensures sent.Some? <==> Complete(formData)
      ensures sent.Some? ==> sent.value == Encode(formData, lang)
      ensures !Complete(formData) ==> errors == ErrorsFor(formData, lang) && isSubmitted == old(isSubmitted)
      ensures Complete(formData) && reply.Response? && reply.ok ==> isSubmitted && errors == map[]
      ensures Complete(formData) && !(reply.Response? && reply.ok) ==>
        errors == map[GdprConsent := FailureNotice(reply, lang)] && isSubmitted == old(isSubmitted)
    {
      var ok := ValidateForm();
      if !ok {
        return None;
      }
      NoErrorsIffComplete(formData, lang);
      var body := EncodeSubmission(formData, lang);
      sent := Some(body);
      if reply.Response? && reply.ok {
        isSubmitted := true;
      } else {
        errors := map[GdprConsent := FailureNotice(reply, lang)];
      }
    }

    /** `resetForm`: back to the empty form, without errors, off the
        thank-you screen; the language stays. */
    method ResetForm()
      requires Valid()
      modifies this
      ensures Valid()
      ensures formData == EmptyForm() && errors == map[] && !isSubmitted
      ensures lang == old(lang) && stored == old(stored) && isHydrated == old(isHydrated)
    {
      formData := EmptyForm();
      errors := map[];
      isSubmitted := false;
    }
  }
}
