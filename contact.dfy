/** The contact form: the field rules checked before submission, the email
    pattern, the rate-limit and honeypot gate, the request payload, and how
    the form's flags follow the request's outcome. */
module ContactCTA {
  import opened Util

  datatype FormData = FormData(name: string, email: string, subject: string, message: string, honeypot: string)

  /** The form's default values, also what `form.reset()` restores. */
  const EmptyForm := FormData("", "", "", "", "")

  /** The JSON body sent to the form relay. */
  datatype Payload = Payload(name: string, email: string, subject: string, message: string)

  /** How the request ended: a 2xx response, another response, or an
      exception thrown by `fetch`. */
  datatype Response = Ok | NotOk | NetworkError

  /** Milliseconds that must pass between two accepted submissions. */
  const RateLimitMs := 5000

  // ---------------------------------------------------------------------
  // Field rules (as the form library applies them: `required` rejects the
  // empty string; `minLength` and `pattern` are only checked on a
  // non-empty value).

  datatype Rules = Rules(required: bool, minLength: nat, emailPattern: bool)

  const NameRules := Rules(true, 2, false)
  const EmailRules := Rules(true, 0, true)
  const SubjectRules := Rules(false, 0, false)
  const MessageRules := Rules(true, 10, false)

  predicate IsLocalChar(c: char)
  {
    IsAsciiLetter(c) || IsDigit(c) || c == '.' || c == '_' || c == '%' || c == '+' || c == '-'
  }

  predicate IsDomainChar(c: char)
  {
    IsAsciiLetter(c) || IsDigit(c) || c == '.' || c == '-'
  }

  predicate AllLocal(s: string) { forall i :: 0 <= i < |s| ==> IsLocalChar(s[i]) }

  predicate AllDomain(s: string) { forall i :: 0 <= i < |s| ==> IsDomainChar(s[i]) }

  predicate AllLetters(s: string) { forall i :: 0 <= i < |s| ==> IsAsciiLetter(s[i]) }

  /** `local@domain.tld`. */
  function Address(local: string, domain: string, tld: string): (s: string)
    ensures |s| == |local| + |domain| + |tld| + 2
  {
    local + (['@'] + (domain + (['.'] + tld)))
  }

  /** What the pattern asks of each part: a non-empty local part over
      [A-Z0-9._%+-], a non-empty domain over [A-Z0-9.-], and a top-level
      domain of at least two letters, ignoring case. */
  predicate EmailParts(local: string, domain: string, tld: string)
  {
    |local| >= 1 && AllLocal(local) && |domain| >= 1 && AllDomain(domain) && |tld| >= 2 && AllLetters(tld)
  }

  /** The email pattern, read as the regular expression it is: some way of
      writing `s` as `local@domain.tld` with parts as above. */
  ghost predicate MatchesEmailPattern(s: string)
  {
    exists local: string, domain: string, tld: string :: s == Address(local, domain, tld) && EmailParts(local, domain, tld)
  }

  datatype AddressParts = AddressParts(local: string, domain: string, tld: string)

  /** The second cut: `rest` at its last '.', into the domain and the
      top-level domain. */
  function CutAtLastDot(rest: string): (r: Option<(string, string)>)
    ensures r.Some? ==> rest == r.value.0 + (['.'] + r.value.1) && '.' !in r.value.1
    ensures r.None? ==> '.' !in rest
  {
    match LastIndexOf(rest, '.')
    case None => None
    case Some(k) =>
      assert rest == rest[..k] + (['.'] + rest[k + 1..]);
      Some((rest[..k], rest[k + 1..]))
  }

  /** The cut the computed check makes: at the first '@', then what follows
      at its last '.'. */
  function CutAddress(s: string): (r: Option<AddressParts>)
    ensures r.Some? ==> s == Address(r.value.local, r.value.domain, r.value.tld)
    ensures r.Some? ==> '@' !in r.value.local && '.' !in r.value.tld
    ensures r.None? ==> '@' !in s || '.' !in s[IndexOf(s, '@').value + 1..]
  {
    match IndexOf(s, '@')
    case None => None
    case Some(i) =>
      match CutAtLastDot(s[i + 1..])
      case None => None
      case Some(d) =>
        assert s == s[..i] + (['@'] + s[i + 1..]);
        Some(AddressParts(s[..i], d.0, d.1))
  }

  /** The same check, computed. */
  predicate IsEmail(s: string)
  {
    match CutAddress(s)
    case None => false
    case Some(p) => EmailParts(p.local, p.domain, p.tld)
  }

  lemma LocalHasNoAt(local: string)
    requires AllLocal(local)
    ensures '@' !in local
  {
    forall j | 0 <= j < |local| ensures local[j] != '@' {
      assert IsLocalChar(local[j]);
    }
  }

  lemma DomainHasNoAt(domain: string)
    requires AllDomain(domain)
    ensures '@' !in domain
  {
    forall j | 0 <= j < |domain| ensures domain[j] != '@' {
      assert IsDomainChar(domain[j]);
    }
  }

  lemma LettersHaveNoAtOrDot(tld: string)
    requires AllLetters(tld)
    ensures '@' !in tld && '.' !in tld
  {
    forall j | 0 <= j < |tld| ensures tld[j] != '@' && tld[j] != '.' {
      assert IsAsciiLetter(tld[j]);
    }
  }

  /** The first '@' ends a part that has none. */
  lemma FirstAt(local: string, rest: string)
    requires '@' !in local
    ensures IndexOf(local + (['@'] + rest), '@') == Some(|local|)
  {
    var s := local + (['@'] + rest);
    assert s[|local|] == '@';
    assert s[..|local|] == local;
  }

  /** The last '.' starts a part that has none. */
  lemma CutAtLastDotOf(domain: string, tld: string)
    requires '.' !in tld
    ensures CutAtLastDot(domain + (['.'] + tld)) == Some((domain, tld))
  {
    var rest := domain + (['.'] + tld);
    assert rest[|domain|] == '.';
    assert rest[|domain| + 1..] == tld;
    assert LastIndexOf(rest, '.') == Some(|domain|);
    assert rest[..|domain|] == domain;
  }

  /** `CutAddress` cuts at the first '@' and then where `CutAtLastDot` cuts. */
  lemma CutAddressAt(s: string, i: nat, d: (string, string))
    requires IndexOf(s, '@') == Some(i)
    requires CutAtLastDot(s[i + 1..]) == Some(d)
    ensures CutAddress(s) == Some(AddressParts(s[..i], d.0, d.1))
  {
  }

  /** Every address the pattern matches is cut into its own parts. */
  lemma CutAddressOf(local: string, domain: string, tld: string)
    requires '@' !in local && '.' !in tld
    ensures CutAddress(Address(local, domain, tld)) == Some(AddressParts(local, domain, tld))
  {
    var rest := domain + (['.'] + tld);
    var s := local + (['@'] + rest);
    assert Address(local, domain, tld) == s;
    FirstAt(local, rest);
    assert s[|local| + 1..] == rest;
    CutAtLastDotOf(domain, tld);
    CutAddressAt(s, |local|, (domain, tld));
    assert s[..|local|] == local;
  }

  /** The computed check accepts exactly the strings the pattern matches. */
  lemma EmailCheckIsPattern(s: string)
    ensures IsEmail(s) <==> MatchesEmailPattern(s)
  {
    if IsEmail(s) {
      var p := CutAddress(s).value;
      assert s == Address(p.local, p.domain, p.tld) && EmailParts(p.local, p.domain, p.tld);
    }
    if MatchesEmailPattern(s) {
      var local: string, domain: string, tld: string :| s == Address(local, domain, tld) && EmailParts(local, domain, tld);
      LocalHasNoAt(local);
      LettersHaveNoAtOrDot(tld);
      CutAddressOf(local, domain, tld);
    }
  }

  /** An accepted address has exactly one '@'. */
  lemma EmailHasOneAt(s: string)
    requires IsEmail(s)
    ensures multiset(s)['@'] == 1
  {
    var p := CutAddress(s).value;
    LocalHasNoAt(p.local);
    DomainHasNoAt(p.domain);
    LettersHaveNoAtOrDot(p.tld);
    assert multiset(s) == multiset(p.local) + (multiset(['@']) + (multiset(p.domain) + (multiset(['.']) + multiset(p.tld))));
  }

  // ---------------------------------------------------------------------
  // The browser's own check on the `type="email"` input. The form has no
  // `noValidate`, so an invalid value blocks the submit event before the
  // form library sees it. The empty value is not checked: the input has no
  // `required` attribute.

  /** The characters HTML allows before the '@' of an e-mail address. */
  predicate IsAtext(c: char)
  {
    IsAsciiLetter(c) || IsDigit(c) || c in ".!#$%&'*+/=?^_`{|}~-"
  }

  predicate IsLabelChar(c: char)
  {
    IsAsciiLetter(c) || IsDigit(c) || c == '-'
  }

  /** A host label: 1 to 63 letters, digits and hyphens, not starting or
      ending with a hyphen. */
  predicate ValidLabel(l: string)
  {
    1 <= |l| <= 63 && (forall i :: 0 <= i < |l| ==> IsLabelChar(l[i]))
    && l[0] != '-' && l[|l| - 1] != '-'
  }

  /** Every '.'-separated label of the host is valid. */
  predicate ValidHost(host: string)
  {
    var labels := Split(host, '.');
    forall k :: 0 <= k < |labels| ==> ValidLabel(labels[k])
  }

  /** A valid e-mail address as HTML defines it for `type="email"`: one or
      more of its allowed characters, an '@', then a valid host. */
  predicate NativeEmail(s: string)
  {
    s == "" ||
    match IndexOf(s, '@')
    case None => false
    case Some(i) => i >= 1 && (forall j :: 0 <= j < i ==> IsAtext(s[j])) && ValidHost(s[i + 1..])
  }

  /** For an address the pattern accepts, the browser adds one demand only:
      the host after the '@' must be made of valid labels. */
  lemma NativeEmailOfPattern(s: string)
    requires IsEmail(s)
    ensures var p := CutAddress(s).value;
      NativeEmail(s) <==> ValidHost(p.domain + (['.'] + p.tld))
  {
    var p := CutAddress(s).value;
    var rest := p.domain + (['.'] + p.tld);
    FirstAt(p.local, rest);
    assert s == p.local + (['@'] + rest);
    assert s[|p.local| + 1..] == rest;
    forall j | 0 <= j < |p.local| ensures IsAtext(s[j]) {
      assert s[j] == p.local[j] && IsLocalChar(p.local[j]);
    }
  }

  /** Two dots in a row match the pattern's domain class, but leave an empty
      label, which HTML rejects: such an address, "a@b..cd" say, never
      reaches `onSubmit`. */
  lemma EmptyLabelRejected(local: string, first: string, tld: string)
    requires EmailParts(local, first + ['.'], tld) && '.' !in first
    ensures IsEmail(Address(local, first + ['.'], tld))
    ensures !NativeEmail(Address(local, first + ['.'], tld))
  {
    var domain := first + ['.'];
    LocalHasNoAt(local);
    LettersHaveNoAtOrDot(tld);
    CutAddressOf(local, domain, tld);
    NativeEmailOfPattern(Address(local, domain, tld));
    var host := domain + (['.'] + tld);
    assert host == first + ['.'] + (['.'] + tld);
    SplitAfter(first, ['.'] + tld, '.');
    assert "" + ['.'] + tld == ['.'] + tld;
    SplitAfter("", tld, '.');
    assert Split(host, '.')[1] == "";
  }

  /** A domain starting with '-' matches the pattern's domain class, but its
      first label starts with a hyphen, which HTML rejects ("a@-b.cd"). */
  lemma HyphenLabelRejected(local: string, domain: string, tld: string)
    requires EmailParts(local, domain, tld) && domain[0] == '-'
    ensures IsEmail(Address(local, domain, tld))
    ensures !NativeEmail(Address(local, domain, tld))
  {
    LocalHasNoAt(local);
    LettersHaveNoAtOrDot(tld);
    CutAddressOf(local, domain, tld);
    NativeEmailOfPattern(Address(local, domain, tld));
    var host := domain + (['.'] + tld);
    assert host[0] == '-';
    assert Split(host, '.')[0][0] == '-';
  }

  function FieldValid(value: string, rules: Rules): bool
  {
    (!rules.required || value != "")
    && (value == "" || (|value| >= rules.minLength && (!rules.emailPattern || IsEmail(value))))
  }

  /** The rules on each field: name and message need at least 2 and 10
      characters, the email must match the pattern, the subject may be
      anything. */
  lemma FieldRules(d: FormData)
    ensures FieldValid(d.name, NameRules) <==> |d.name| >= 2
    ensures FieldValid(d.message, MessageRules) <==> |d.message| >= 10
    ensures FieldValid(d.email, EmailRules) <==> MatchesEmailPattern(d.email)
    ensures FieldValid(d.subject, SubjectRules)
  {
    EmailCheckIsPattern(d.email);
    if d.email == "" {
      assert IndexOf(d.email, '@').None?;
    }
  }

  /** What must hold before `onSubmit` runs: the browser's check on the
      email input, then the rules `handleSubmit` checks. The honeypot has no
      rules. */
  predicate FormValid(d: FormData)
  {
    NativeEmail(d.email)
    && FieldValid(d.name, NameRules) && FieldValid(d.email, EmailRules)
    && FieldValid(d.subject, SubjectRules) && FieldValid(d.message, MessageRules)
  }

  /** A form passes exactly when the name has at least 2 characters, the
      message at least 10, and the email both matches the pattern and is an
      HTML e-mail address. */
  lemma FormValidMeans(d: FormData)
    ensures FormValid(d) <==>
      |d.name| >= 2 && |d.message| >= 10 && MatchesEmailPattern(d.email) && NativeEmail(d.email)
  {
    FieldRules(d);
  }

  // ---------------------------------------------------------------------
  // The submission gate and the request.

  datatype GateDecision = RateLimited | Spam | Accept

  /** `onSubmit`'s two early returns, in order: too soon after the last
      accepted submission, then a filled honeypot. */
  function Gate(lastSubmit: int, now: int, honeypot: string): (g: GateDecision)
    ensures g == RateLimited <==> now - lastSubmit < RateLimitMs
    ensures g == Spam <==> now - lastSubmit >= RateLimitMs && honeypot != ""
  {
    if now - lastSubmit < RateLimitMs then RateLimited
    else if honeypot != "" then Spam
    else Accept
  }

  /** The request body: every visible field, never the honeypot. */
  function PayloadOf(d: FormData): (p: Payload)
    ensures p.name == d.name && p.email == d.email && p.subject == d.subject && p.message == d.message
  {
    Payload(d.name, d.email, d.subject, d.message)
  }

  /** The payload does not depend on the honeypot. */
  lemma PayloadIgnoresHoneypot(d: FormData, honeypot: string)
    ensures PayloadOf(d.(honeypot := honeypot)) == PayloadOf(d)
  {
  }

  /** What one press of "Send Message" leads to. */
  datatype SubmitResult = Invalid | Rejected(reason: GateDecision) | Sent(payload: Payload)

  class ContactForm {
    var fields: FormData
    var isSubmitting: bool
    var isSubmitted: bool
    var lastSubmit: int

    constructor ()
      ensures fields == EmptyForm && !isSubmitting && !isSubmitted && lastSubmit == 0
    {
      fields := EmptyForm;
      isSubmitting := false;
      isSubmitted := false;
      lastSubmit := 0;
    }

    /** The visitor edits the form. The form is on screen only while no
        success screen replaces it, and its inputs are disabled while a
        request is in flight. */
    method Edit(d: FormData)
      requires !isSubmitting && !isSubmitted
      modifies this
      ensures fields == d
      ensures isSubmitting == old(isSubmitting) && isSubmitted == old(isSubmitted)
      ensures lastSubmit == old(lastSubmit)
    {
      fields := d;
    }

    /** `form.handleSubmit(onSubmit)` up to the request, at clock time `now`:
        invalid fields stop it; then the rate limit, then the honeypot; an
        accepted submission marks the form as submitting and records `now`
        before the request (the returned payload) is made. The form can be
        submitted only while it is on screen and its controls are enabled. */
    method Submit(now: int) returns (r: SubmitResult)
      requires !isSubmitting && !isSubmitted
      modifies this
      ensures !FormValid(old(fields)) ==> r == Invalid
      ensures FormValid(old(fields)) && Gate(old(lastSubmit), now, old(fields).honeypot) != Accept ==>
        r == Rejected(Gate(old(lastSubmit), now, old(fields).honeypot))
      ensures FormValid(old(fields)) && Gate(old(lastSubmit), now, old(fields).honeypot) == Accept ==>
        r == Sent(PayloadOf(old(fields)))
      ensures r.Sent? ==> isSubmitting && lastSubmit == now
      ensures !r.Sent? ==> isSubmitting == old(isSubmitting) && lastSubmit == old(lastSubmit)
      ensures fields == old(fields) && isSubmitted == old(isSubmitted)
    {
      if !FormValid(fields) {
        return Invalid;
      }
      var gate := Gate(lastSubmit, now, fields.honeypot);
      if gate != Accept {
        return Rejected(gate);
      }
      isSubmitting := true;
      lastSubmit := now;
      r := Sent(PayloadOf(fields));
    }

    /** The request has ended: only a 2xx response marks the form as sent and
        clears the fields; in every case the form stops submitting. */
    method Settle(response: Response)
      requires isSubmitting
      modifies this
      ensures !isSubmitting
      ensures response == Ok ==> isSubmitted && fields == EmptyForm
      ensures response != Ok ==> isSubmitted == old(isSubmitted) && fields == old(fields)
      ensures lastSubmit == old(lastSubmit)
    {
      if response == Ok {
        isSubmitted := true;
        fields := EmptyForm;
      }
      isSubmitting := false;
    }

    /** "Send Another Message" on the success screen. */
    method SendAnother()
      requires isSubmitted
      modifies this
      ensures !isSubmitted
      ensures fields == old(fields) && isSubmitting == old(isSubmitting) && lastSubmit == old(lastSubmit)
    {
      isSubmitted := false;
    }
  }

  /** A sent submission, its outcome, a return to the form and any edit,
      and a second press less than five seconds after the first: a valid
      second form is turned away by the rate limit, before any request. */
  method SubmitTwice(f: ContactForm, first: int, response: Response, edited: FormData, second: int)
    returns (r1: SubmitResult, r2: SubmitResult)
    requires !f.isSubmitting && !f.isSubmitted
    requires 0 <= second - first < RateLimitMs
    modifies f
    ensures r1.Sent? && FormValid(edited) ==> r2 == Rejected(RateLimited)
    ensures !FormValid(edited) ==> r2 == Invalid
  {
    r1 := f.Submit(first);
    if r1.Sent? {
      f.Settle(response);
      if f.isSubmitted {
        f.SendAnother();
      }
    }
    f.Edit(edited);
    r2 := f.Submit(second);
  }
}
