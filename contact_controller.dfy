/**
 * The contact form: required fields, the email pattern, the two mails it prepares (a
 * notification to the site owner and an auto-reply), and the answer, which depends on how
 * sending them went. Sending itself is outside the model: its outcome is an input.
 */
module ContactController {
  import opened Wrappers
  import opened Ids
  import opened Seqs
  import opened Text

  /** The request body; a field is `None` when it is absent or null. */
  datatype ContactForm = ContactForm(name: Option<string>, email: Option<string>, subject: Option<string>, message: Option<string>)

  /** `EMAIL_USER`, `EMAIL_PASSWORD` and `ADMIN_EMAIL` from the environment. */
  datatype MailEnv = MailEnv(emailUser: Option<string>, emailPassword: Option<string>, adminEmail: Option<string>)

  /**
   * A mail handed to the transport: sender, recipient, subject line, and the fields its
   * body shows (the auto-reply shows no email address).
   */
  datatype Mail = Mail(
    from: Option<string>, to: Option<string>, subject: string,
    shownName: string, shownEmail: Option<string>, shownSubject: string, shownMessage: string)

  /** What sending the two mails came to: delivered, or an error with its `code`, if it has one. */
  datatype SendOutcome = Delivered | Failed(code: Option<string>)

  datatype ContactResponse = ContactResponse(status: int, success: bool, message: string)

  /** The answer, and the mails handed to the transport on the way. */
  datatype ContactResult = ContactResult(response: ContactResponse, mails: seq<Mail>)

  const RequiredMessage: string := "Name, email, and message are required fields"
  const InvalidEmailMessage: string := "Please provide a valid email address"
  const SentMessage: string := "Message sent successfully! We'll get back to you soon."
  const QueuedMessage: string := "Message received! Due to email service limitations, we'll respond directly to your email address within 24 hours."
  const FailedMessage: string := "Failed to send message. Please try again later."
  const AutoReplySubject: string := "Thank you for contacting J's Recipe Box!"
  const SummaryLength: nat := 100

  /** JavaScript truthiness of a string field: present and non-empty. */
  predicate Truthy(s: Option<string>) {
    s.Some? && s.value != ""
  }

  /** `s || fallback` for a string field. */
  function StringOr(s: Option<string>, fallback: string): (r: string)
    ensures Truthy(s) ==> r == s.value
    ensures !Truthy(s) ==> r == fallback
  {
    if Truthy(s) then s.value else fallback
  }

  // ---------------------------------------------------------------------------
  // The email pattern /^[^\s@]+@[^\s@]+\.[^\s@]+$/

  /** A character the class `[^\s@]` accepts. */
  predicate Plain(c: char) {
    !IsSpace(c) && c != '@'
  }

  predicate AllPlain(s: string) {
    forall i :: 0 <= i < |s| ==> Plain(s[i])
  }

  /**
   * The pattern matches `s`: `s` splits at an `@` (position `a`) and a later `.` (position
   * `d`) into three non-empty runs of characters from `[^\s@]`.
   */
  predicate EmailPatternMatches(s: string) {
    exists a :: 0 < a < |s| && s[a] == '@' &&
      exists d :: a + 1 < d < |s| - 1 && s[d] == '.' &&
        AllPlain(s[..a]) && AllPlain(s[a + 1..d]) && AllPlain(s[d + 1..])
  }

  /**
   * The same language described by its properties: no whitespace, exactly one `@`, which
   * is not the first character, and a `.` in the domain with a character on each side.
   */
  predicate EmailShape(s: string) {
    && (forall i :: 0 <= i < |s| ==> !IsSpace(s[i]))
    && exists a :: 0 < a < |s| && s[a] == '@'
         && (forall j :: 0 <= j < |s| && s[j] == '@' ==> j == a)
         && exists d :: a + 1 < d < |s| - 1 && s[d] == '.'
  }

  lemma MatchHasShape(s: string, a: int, d: int)
    requires 0 < a < |s| && s[a] == '@' && a + 1 < d < |s| - 1 && s[d] == '.'
    requires AllPlain(s[..a]) && AllPlain(s[a + 1..d]) && AllPlain(s[d + 1..])
    ensures forall i :: 0 <= i < |s| && i != a ==> Plain(s[i])
  {
    forall i | 0 <= i < |s| && i != a ensures Plain(s[i]) {
      if i < a {
        assert s[i] == s[..a][i];
      } else if i < d {
        assert s[i] == s[a + 1..d][i - a - 1];
      } else if i == d {
        assert !IsSpace('.');
      } else {
        assert s[i] == s[d + 1..][i - d - 1];
      }
    }
  }

  lemma PatternHasShape(s: string)
    requires EmailPatternMatches(s)
    ensures EmailShape(s)
  {
    var a :| 0 < a < |s| && s[a] == '@' &&
      exists d :: a + 1 < d < |s| - 1 && s[d] == '.' &&
        AllPlain(s[..a]) && AllPlain(s[a + 1..d]) && AllPlain(s[d + 1..]);
    var d :| a + 1 < d < |s| - 1 && s[d] == '.' &&
      AllPlain(s[..a]) && AllPlain(s[a + 1..d]) && AllPlain(s[d + 1..]);
    MatchHasShape(s, a, d);
    assert !IsSpace('@');
  }

  lemma ShapeMatchesPattern(s: string)
    requires EmailShape(s)
    ensures EmailPatternMatches(s)
  {
    var a :| 0 < a < |s| && s[a] == '@'
       && (forall j :: 0 <= j < |s| && s[j] == '@' ==> j == a)
       && exists d :: a + 1 < d < |s| - 1 && s[d] == '.';
    var d :| a + 1 < d < |s| - 1 && s[d] == '.';
    var local, domain, top := s[..a], s[a + 1..d], s[d + 1..];
    assert AllPlain(local) by {
      forall i | 0 <= i < |local| ensures Plain(local[i]) { assert local[i] == s[i]; }
    }
    assert AllPlain(domain) by {
      forall i | 0 <= i < |domain| ensures Plain(domain[i]) { assert domain[i] == s[a + 1 + i]; }
    }
    assert AllPlain(top) by {
      forall i | 0 <= i < |top| ensures Plain(top[i]) { assert top[i] == s[d + 1 + i]; }
    }
  }

  /** The pattern accepts exactly the strings of that shape. */
  lemma EmailPatternIff(s: string)
    ensures EmailPatternMatches(s) <==> EmailShape(s)
  {
    if EmailPatternMatches(s) {
      PatternHasShape(s);
    }
    if EmailShape(s) {
      ShapeMatchesPattern(s);
    }
  }

  // ---------------------------------------------------------------------------
  // The mails

  /** The quoted message in the auto-reply: its first 100 characters, then `...` if it was longer. */
  function Summary(message: string): (r: string)
    ensures |message| <= SummaryLength ==> r == message
    ensures |message| > SummaryLength ==> r == message[..SummaryLength] + "..."
  {
    if |message| <= SummaryLength then message else message[..SummaryLength] + "..."
  }

  /** The summary is never longer than 103 characters and always starts with the message's opening. */
  lemma SummaryShape(message: string)
    ensures |Summary(message)| <= SummaryLength + 3
    ensures var n := if |message| < SummaryLength then |message| else SummaryLength;
      |Summary(message)| >= n && Summary(message)[..n] == message[..n]
    ensures |Summary(message)| > SummaryLength <==> |message| > SummaryLength
  {
  }

  /** `process.env.ADMIN_EMAIL || process.env.EMAIL_USER`. */
  function Recipient(env: MailEnv): (r: Option<string>)
    ensures Truthy(env.adminEmail) ==> r == env.adminEmail
    ensures !Truthy(env.adminEmail) ==> r == env.emailUser
  {
    if Truthy(env.adminEmail) then env.adminEmail else env.emailUser
  }

  /** The notification to the site owner; its subject line defaults to `'New Message'`, its body to `'No subject provided'`. */
  function AdminMail(form: ContactForm, env: MailEnv): Mail {
    Mail(env.emailUser, Recipient(env),
      "Contact Form: " + StringOr(form.subject, "New Message") + " - from " + form.name.GetOr(""),
      form.name.GetOr(""), form.email,
      StringOr(form.subject, "No subject provided"),
      form.message.GetOr(""))
  }

  /** The auto-reply to the sender; it shows the subject, defaulting to `'General Inquiry'`, and the summary. */
  function AutoReply(form: ContactForm, env: MailEnv): Mail {
    Mail(env.emailUser, form.email, AutoReplySubject,
      form.name.GetOr(""), None,
      StringOr(form.subject, "General Inquiry"),
      Summary(form.message.GetOr("")))
  }

  /** Without a subject each place falls back to its own default; with one, all three show it. */
  lemma SubjectDefaults(form: ContactForm, env: MailEnv)
    ensures !Truthy(form.subject) ==>
      && AdminMail(form, env).subject == "Contact Form: New Message - from " + form.name.GetOr("")
      && AdminMail(form, env).shownSubject == "No subject provided"
      && AutoReply(form, env).shownSubject == "General Inquiry"
    ensures Truthy(form.subject) ==>
      && AdminMail(form, env).shownSubject == form.subject.value
      && AutoReply(form, env).shownSubject == form.subject.value
  {
  }

  // ---------------------------------------------------------------------------
  // The handler

  /** The `catch` block: a timeout or connection error still counts as received; anything else fails. */
  function CatchResponse(code: Option<string>): (r: ContactResponse)
    ensures r.success <==> r.status == Ok
    ensures r.success <==> code == Some("ETIMEDOUT") || code == Some("ECONNECTION")
    ensures !r.success ==> r.status == ServerError
  {
    if code == Some("ETIMEDOUT") || code == Some("ECONNECTION") then ContactResponse(Ok, true, QueuedMessage)
    else ContactResponse(ServerError, false, FailedMessage)
  }

  predicate RequiredPresent(form: ContactForm) {
    Truthy(form.name) && Truthy(form.email) && Truthy(form.message)
  }

  predicate CredentialsSet(env: MailEnv) {
    Truthy(env.emailUser) && Truthy(env.emailPassword)
  }

  /**
   * `sendContactEmail`: the required-field check, then the email pattern, then the
   * credentials check of `createTransporter` (its error has no code), then both mails.
   */
  function SendContactEmail(form: ContactForm, env: MailEnv, outcome: SendOutcome): (r: ContactResult)
    ensures !RequiredPresent(form) ==> r == ContactResult(ContactResponse(BadRequest, false, RequiredMessage), [])
    ensures RequiredPresent(form) && !EmailPatternMatches(form.email.value) ==>
      r == ContactResult(ContactResponse(BadRequest, false, InvalidEmailMessage), [])
    ensures RequiredPresent(form) && EmailPatternMatches(form.email.value) && !CredentialsSet(env) ==>
      r == ContactResult(CatchResponse(None), [])
    ensures RequiredPresent(form) && EmailPatternMatches(form.email.value) && CredentialsSet(env) ==>
      && r.mails == [AdminMail(form, env), AutoReply(form, env)]
      && r.response == match outcome
                       case Delivered => ContactResponse(Ok, true, SentMessage)
                       case Failed(code) => CatchResponse(code)
  {
    if !RequiredPresent(form) then
      ContactResult(ContactResponse(BadRequest, false, RequiredMessage), [])
    else if !EmailPatternMatches(form.email.value) then
      ContactResult(ContactResponse(BadRequest, false, InvalidEmailMessage), [])
    else if !CredentialsSet(env) then
      ContactResult(CatchResponse(None), [])
    else
      var mails := [AdminMail(form, env), AutoReply(form, env)];
      match outcome
      case Delivered => ContactResult(ContactResponse(Ok, true, SentMessage), mails)
      case Failed(code) => ContactResult(CatchResponse(code), mails)
  }

  /** `success` is true exactly for answers with status 200; every other answer is 400 or 500. */
  lemma SuccessMeansOk(form: ContactForm, env: MailEnv, outcome: SendOutcome)
    ensures var r := SendContactEmail(form, env, outcome).response;
      && (r.success <==> r.status == Ok)
      && (r.status == Ok || r.status == BadRequest || r.status == ServerError)
  {
  }

  /** A missing required field is reported as such, whatever the email looks like. */
  lemma RequiredCheckedFirst(form: ContactForm, env: MailEnv, outcome: SendOutcome)
    requires !RequiredPresent(form)
    ensures SendContactEmail(form, env, outcome).response.message == RequiredMessage
  {
  }

  /**
   * Mail is only prepared for a complete form with a well-shaped address: one notification
   * to the owner, one reply to that address quoting the summary of the message.
   */
  lemma MailOnlyForValidForms(form: ContactForm, env: MailEnv, outcome: SendOutcome)
    ensures var r := SendContactEmail(form, env, outcome);
      r.mails != [] ==>
        && RequiredPresent(form) && EmailShape(form.email.value) && CredentialsSet(env)
        && |r.mails| == 2
        && r.mails[0].to == Recipient(env)
        && r.mails[1].to == form.email
        && r.mails[1].shownMessage == Summary(form.message.value)
  {
    if SendContactEmail(form, env, outcome).mails != [] {
      EmailPatternIff(form.email.value);
    }
  }

  /** A delivery that fails for a reason other than a timeout or a connection error is a 500. */
  lemma OtherErrorsFail(form: ContactForm, env: MailEnv, code: Option<string>)
    requires RequiredPresent(form) && EmailPatternMatches(form.email.value)
    requires code != Some("ETIMEDOUT") && code != Some("ECONNECTION")
    ensures SendContactEmail(form, env, Failed(code)).response == ContactResponse(ServerError, false, FailedMessage)
  {
  }

  // ---------------------------------------------------------------------------
  // getContactInfo

  datatype SubjectOption = SubjectOption(value: string, caption: string)

  datatype ContactInfo = ContactInfo(
    email: string, phone: string, location: string, businessHours: string, responseTime: string,
    subjects: seq<SubjectOption>)

  function SubjectValues(subjects: seq<SubjectOption>): (vs: seq<string>)
    ensures |vs| == |subjects| && forall i :: 0 <= i < |vs| ==> vs[i] == subjects[i].value
  {
    seq(|subjects|, i requires 0 <= i < |subjects| => subjects[i].value)
  }

  /** Strings with pairwise different first characters are pairwise different. */
  lemma DistinctHeads(vs: seq<string>)
    requires forall i :: 0 <= i < |vs| ==> |vs[i]| > 0
    requires forall i, j :: 0 <= i < j < |vs| ==> vs[i][0] != vs[j][0]
    ensures NoDup(vs)
  {
  }

  const Subjects: seq<SubjectOption> := [
    SubjectOption("general", "General Question"),
    SubjectOption("recipe", "Recipe Support"),
    SubjectOption("account", "Account Issues"),
    SubjectOption("business", "Business Inquiry"),
    SubjectOption("feedback", "Feedback"),
    SubjectOption("other", "Other")]

  /** `getContactInfo`: the fixed contact details and the six subjects offered, each value distinct. */
  function GetContactInfo(): (info: ContactInfo)
    ensures SubjectValues(info.subjects) == ["general", "recipe", "account", "business", "feedback", "other"]
    ensures NoDup(SubjectValues(info.subjects))
  {
    DistinctHeads(SubjectValues(Subjects));
    ContactInfo(
      "fongejustice918@gmail.com",
      "+237 673 746 133",
      "Cameroon, Central Africa",
      "Monday - Friday, 9:00 AM - 6:00 PM (GMT+1)",
      "We typically respond within 24 hours",
      Subjects)
  }
}
