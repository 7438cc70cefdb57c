/** Start-up validation of the SMTP settings: each field check that fails adds
    its message to a list, and the settings are accepted exactly when the list
    stays empty. Whether a string is a well-formed mail address is decided by
    the mail library, so it is a parameter of the model. */
module SmtpValidation {
  import opened Common

  /** The bound SMTP section; an absent string setting is None. */
  datatype SmtpSettings = SmtpSettings(
    server: Option<string>,
    port: int,
    useSsl: bool,
    username: Option<string>,
    password: Option<string>,
    senderEmail: Option<string>,
    senderName: Option<string>)

  datatype ValidateOptionsResult = Success | Fail(failures: seq<string>)

  const ServerError := "'Server' must be provided."
  const PortError := "'Port' must be between 1 and 65535."
  const UsernameError := "Username is a required field."
  const PasswordError := "Password is a required filed."
  const SenderEmailError := "'SenderEmail' must be a valid email address."
  const SenderNameError := "'SenderName' is a required field."

  predicate IsNullOrEmpty(s: Option<string>) {
    s.None? || |s.value| == 0
  }

  /** IsValidEmail on a possibly absent address: the library rejects a null address. */
  predicate EmailOk(e: Option<string>, isValidEmail: string -> bool) {
    e.Some? && isValidEmail(e.value)
  }

  /** The sender-address check as the validator writes it: its first operand tests the sender NAME. */
  predicate SenderEmailCheckFails(o: SmtpSettings, isValidEmail: string -> bool) {
    IsNullOrEmpty(o.senderName) || !EmailOk(o.senderEmail, isValidEmail)
  }

  /** The sender-address check as its message describes it: the address itself must be valid. */
  predicate SenderEmailCheckFailsIntended(o: SmtpSettings, isValidEmail: string -> bool) {
    !EmailOk(o.senderEmail, isValidEmail)
  }

  /** The six checks, in the order the validator runs them. */
  datatype Check = ServerCheck | PortCheck | UsernameCheck | PasswordCheck | SenderEmailCheck | SenderNameCheck {

    function Rank(): (r: nat) {
      match this
      case ServerCheck => 0
      case PortCheck => 1
      case UsernameCheck => 2
      case PasswordCheck => 3
      case SenderEmailCheck => 4
      case SenderNameCheck => 5
    }

    /** The message a failing check adds. */
    function Message(): (r: string) {
      match this
      case ServerCheck => ServerError
      case PortCheck => PortError
      case UsernameCheck => UsernameError
      case PasswordCheck => PasswordError
      case SenderEmailCheck => SenderEmailError
      case SenderNameCheck => SenderNameError
    }
  }

  /** Whether a check fails on the settings; the sender-address check's outcome is given. */
  predicate Fails(o: SmtpSettings, senderEmailFails: bool, c: Check) {
    match c
    case ServerCheck => IsNullOrEmpty(o.server)
    case PortCheck => o.port < 1 || o.port > 65535
    case UsernameCheck => IsNullOrEmpty(o.username)
    case PasswordCheck => IsNullOrEmpty(o.password)
    case SenderEmailCheck => senderEmailFails
    case SenderNameCheck => IsNullOrEmpty(o.senderName)
  }

  /** Different checks have different messages. */
  lemma MessagesAreDistinct(c: Check, d: Check)
    ensures c.Message() == d.Message() ==> c == d
  {
    assert |ServerError| == 26 && |PortError| == 35 && |UsernameError| == 29;
    assert |PasswordError| == 29 && |SenderEmailError| == 44 && |SenderNameError| == 33;
    assert UsernameError[0] == 'U' && PasswordError[0] == 'P';
  }

  predicate InCheckOrder(cs: seq<Check>) {
    forall i, j :: 0 <= i < j < |cs| ==> cs[i].Rank() < cs[j].Rank()
  }

  function IfFails(fails: bool, c: Check): (r: seq<Check>) {
    if fails then [c] else []
  }

  /** The checks that fail, in check order. */
  function FailedChecks(o: SmtpSettings, senderEmailFails: bool): (r: seq<Check>) {
    IfFails(Fails(o, senderEmailFails, ServerCheck), ServerCheck)
    + IfFails(Fails(o, senderEmailFails, PortCheck), PortCheck)
    + IfFails(Fails(o, senderEmailFails, UsernameCheck), UsernameCheck)
    + IfFails(Fails(o, senderEmailFails, PasswordCheck), PasswordCheck)
    + IfFails(Fails(o, senderEmailFails, SenderEmailCheck), SenderEmailCheck)
    + IfFails(Fails(o, senderEmailFails, SenderNameCheck), SenderNameCheck)
  }

  /** One step: appending a later check keeps check order. */
  lemma AppendIfFailsKeepsCheckOrder(cs: seq<Check>, fails: bool, c: Check)
    requires InCheckOrder(cs)
    requires forall i :: 0 <= i < |cs| ==> cs[i].Rank() < c.Rank()
    ensures InCheckOrder(cs + IfFails(fails, c))
    ensures forall i :: 0 <= i < |cs + IfFails(fails, c)| ==> (cs + IfFails(fails, c))[i].Rank() <= c.Rank()
  {
    var e := cs + IfFails(fails, c);
    forall i, j | 0 <= i < j < |e| ensures e[i].Rank() < e[j].Rank() {
      assert e[i] == cs[i];
    }
  }

  lemma FailedChecksMembership(o: SmtpSettings, senderEmailFails: bool, c: Check)
    ensures c in FailedChecks(o, senderEmailFails) <==> Fails(o, senderEmailFails, c)
  {
  }

  /** Exactly the failing checks appear, each once, in check order. */
  lemma FailedChecksMeaning(o: SmtpSettings, senderEmailFails: bool)
    ensures forall c: Check :: c in FailedChecks(o, senderEmailFails) <==> Fails(o, senderEmailFails, c)
    ensures InCheckOrder(FailedChecks(o, senderEmailFails))
  {
    var sef := senderEmailFails;
    forall c: Check ensures c in FailedChecks(o, sef) <==> Fails(o, sef, c) {
      FailedChecksMembership(o, sef, c);
    }
    var e1 := IfFails(Fails(o, sef, ServerCheck), ServerCheck);
    var e2 := e1 + IfFails(Fails(o, sef, PortCheck), PortCheck);
    var e3 := e2 + IfFails(Fails(o, sef, UsernameCheck), UsernameCheck);
    var e4 := e3 + IfFails(Fails(o, sef, PasswordCheck), PasswordCheck);
    var e5 := e4 + IfFails(Fails(o, sef, SenderEmailCheck), SenderEmailCheck);
    AppendIfFailsKeepsCheckOrder(e1, Fails(o, sef, PortCheck), PortCheck);
    AppendIfFailsKeepsCheckOrder(e2, Fails(o, sef, UsernameCheck), UsernameCheck);
    AppendIfFailsKeepsCheckOrder(e3, Fails(o, sef, PasswordCheck), PasswordCheck);
    AppendIfFailsKeepsCheckOrder(e4, Fails(o, sef, SenderEmailCheck), SenderEmailCheck);
    AppendIfFailsKeepsCheckOrder(e5, Fails(o, sef, SenderNameCheck), SenderNameCheck);
  }

  /** The message of each check, in order. */
  function MessagesOf(cs: seq<Check>): (ms: seq<string>)
    ensures |ms| == |cs|
    ensures forall i :: 0 <= i < |cs| ==> ms[i] == cs[i].Message()
  {
    seq(|cs|, i requires 0 <= i < |cs| => cs[i].Message())
  }

  lemma MessagesOfConcat(a: seq<Check>, b: seq<Check>)
    ensures MessagesOf(a + b) == MessagesOf(a) + MessagesOf(b)
  {
    var l, r := MessagesOf(a + b), MessagesOf(a) + MessagesOf(b);
    forall i | 0 <= i < |l| ensures l[i] == r[i] {
      if i < |a| {
        assert (a + b)[i] == a[i];
      } else {
        assert (a + b)[i] == b[i - |a|];
      }
    }
  }

  /** The messages of the failing checks name exactly those checks, with no message twice. */
  lemma FailureMessagesMeaning(o: SmtpSettings, senderEmailFails: bool)
    ensures var ms := MessagesOf(FailedChecks(o, senderEmailFails));
      && (forall c: Check :: c.Message() in ms <==> Fails(o, senderEmailFails, c))
      && (forall i, j :: 0 <= i < j < |ms| ==> ms[i] != ms[j])
      && (ms == [] <==> forall c: Check :: !Fails(o, senderEmailFails, c))
  {
    var cs := FailedChecks(o, senderEmailFails);
    var ms := MessagesOf(cs);
    FailedChecksMeaning(o, senderEmailFails);
    forall c: Check ensures c.Message() in ms <==> Fails(o, senderEmailFails, c) {
      if c.Message() in ms {
        var i :| 0 <= i < |ms| && ms[i] == c.Message();
        MessagesAreDistinct(cs[i], c);
      }
    }
    forall i, j | 0 <= i < j < |ms| ensures ms[i] != ms[j] {
      MessagesAreDistinct(cs[i], cs[j]);
    }
    if ms != [] {
      assert cs[0] in cs;
    }
  }

  /** One check's effect on the list: its message is added when it fails. */
  function AddIfFails(errors: seq<string>, fails: bool, m: string): (r: seq<string>) {
    if fails then errors + [m] else errors
  }

  /** The messages the validator's straight-line checks collect, in check order. */
  function FailureList(o: SmtpSettings, senderEmailFails: bool): (r: seq<string>) {
    var e1 := AddIfFails([], IsNullOrEmpty(o.server), ServerError);
    var e2 := AddIfFails(e1, o.port < 1 || o.port > 65535, PortError);
    var e3 := AddIfFails(e2, IsNullOrEmpty(o.username), UsernameError);
    var e4 := AddIfFails(e3, IsNullOrEmpty(o.password), PasswordError);
    var e5 := AddIfFails(e4, senderEmailFails, SenderEmailError);
    AddIfFails(e5, IsNullOrEmpty(o.senderName), SenderNameError)
  }

  /** Adding a check's message to the messages of some checks gives the messages of those checks
      followed by that check, when it fails. */
  lemma AddIfFailsStep(cs: seq<Check>, fails: bool, c: Check)
    ensures AddIfFails(MessagesOf(cs), fails, c.Message()) == MessagesOf(cs + IfFails(fails, c))
  {
    if fails {
      MessagesOfConcat(cs, [c]);
    } else {
      assert cs + [] == cs;
    }
  }

  /** The collected list is the list of messages of the failed checks. */
  lemma FailureListIsMessagesOfFailedChecks(o: SmtpSettings, senderEmailFails: bool)
    ensures FailureList(o, senderEmailFails) == MessagesOf(FailedChecks(o, senderEmailFails))
  {
    var sef := senderEmailFails;
    var e0: seq<Check> := [];
    var e1 := e0 + IfFails(Fails(o, sef, ServerCheck), ServerCheck);
    var e2 := e1 + IfFails(Fails(o, sef, PortCheck), PortCheck);
    var e3 := e2 + IfFails(Fails(o, sef, UsernameCheck), UsernameCheck);
    var e4 := e3 + IfFails(Fails(o, sef, PasswordCheck), PasswordCheck);
    var e5 := e4 + IfFails(Fails(o, sef, SenderEmailCheck), SenderEmailCheck);
    var e6 := e5 + IfFails(Fails(o, sef, SenderNameCheck), SenderNameCheck);
    AddIfFailsStep(e0, Fails(o, sef, ServerCheck), ServerCheck);
    AddIfFailsStep(e1, Fails(o, sef, PortCheck), PortCheck);
    AddIfFailsStep(e2, Fails(o, sef, UsernameCheck), UsernameCheck);
    AddIfFailsStep(e3, Fails(o, sef, PasswordCheck), PasswordCheck);
    AddIfFailsStep(e4, Fails(o, sef, SenderEmailCheck), SenderEmailCheck);
    AddIfFailsStep(e5, Fails(o, sef, SenderNameCheck), SenderNameCheck);
    assert e0 + IfFails(Fails(o, sef, ServerCheck), ServerCheck) == IfFails(Fails(o, sef, ServerCheck), ServerCheck);
    assert e6 == FailedChecks(o, sef);
  }

  /** Runs the six checks in order, appending the message of each that fails. */
  method CollectErrors(o: SmtpSettings, senderEmailFails: bool) returns (errors: seq<string>)
    ensures errors == FailureList(o, senderEmailFails)
  {
    errors := [];
    ghost var before := errors;
    if IsNullOrEmpty(o.server) {
      errors := errors + [ServerError];
    }
    assert errors == AddIfFails(before, IsNullOrEmpty(o.server), ServerError);
    before := errors;
    if o.port < 1 || o.port > 65535 {
      errors := errors + [PortError];
    }
    assert errors == AddIfFails(before, o.port < 1 || o.port > 65535, PortError);
    before := errors;
    if IsNullOrEmpty(o.username) {
      errors := errors + [UsernameError];
    }
    assert errors == AddIfFails(before, IsNullOrEmpty(o.username), UsernameError);
    before := errors;
    if IsNullOrEmpty(o.password) {
      errors := errors + [PasswordError];
    }
    assert errors == AddIfFails(before, IsNullOrEmpty(o.password), PasswordError);
    before := errors;
    if senderEmailFails {
      errors := errors + [SenderEmailError];
    }
    assert errors == AddIfFails(before, senderEmailFails, SenderEmailError);
    before := errors;
    if IsNullOrEmpty(o.senderName) {
      errors := errors + [SenderNameError];
    }
    assert errors == AddIfFails(before, IsNullOrEmpty(o.senderName), SenderNameError);
  }

  /** What a collected list says: it is empty exactly when no check fails, and otherwise it is
      the messages of exactly the failing checks, in check order. */
  lemma CollectedErrorsMeaning(o: SmtpSettings, senderEmailFails: bool, errors: seq<string>)
    requires errors == FailureList(o, senderEmailFails)
    ensures |errors| == 0 <==> forall c: Check :: !Fails(o, senderEmailFails, c)
    ensures errors == MessagesOf(FailedChecks(o, senderEmailFails))
    ensures forall c: Check :: c.Message() in errors <==> Fails(o, senderEmailFails, c)
  {
    FailureListIsMessagesOfFailedChecks(o, senderEmailFails);
    FailureMessagesMeaning(o, senderEmailFails);
  }

  /** Validate as written: accepted exactly when no check fails; otherwise the messages of the
      failing checks, in check order. */
  method Validate(o: SmtpSettings, isValidEmail: string -> bool) returns (r: ValidateOptionsResult)
    ensures var sef := SenderEmailCheckFails(o, isValidEmail);
      && (r.Success? <==> forall c: Check :: !Fails(o, sef, c))
      && (r.Fail? ==> r.failures == MessagesOf(FailedChecks(o, sef)))
      && (r.Fail? ==> forall c: Check :: c.Message() in r.failures <==> Fails(o, sef, c))
  {
    var senderEmailFails := SenderEmailCheckFails(o, isValidEmail);
    var errors := CollectErrors(o, senderEmailFails);
    CollectedErrorsMeaning(o, senderEmailFails, errors);
    if |errors| > 0 {
      return Fail(errors);
    }
    return Success;
  }

  /** Validate with the sender-address check testing the address, as intended. */
  method ValidateIntended(o: SmtpSettings, isValidEmail: string -> bool) returns (r: ValidateOptionsResult)
    ensures var sef := SenderEmailCheckFailsIntended(o, isValidEmail);
      && (r.Success? <==> forall c: Check :: !Fails(o, sef, c))
      && (r.Fail? ==> r.failures == MessagesOf(FailedChecks(o, sef)))
      && (r.Fail? ==> forall c: Check :: c.Message() in r.failures <==> Fails(o, sef, c))
  {
    var senderEmailFails := SenderEmailCheckFailsIntended(o, isValidEmail);
    var errors := CollectErrors(o, senderEmailFails);
    CollectedErrorsMeaning(o, senderEmailFails, errors);
    if |errors| > 0 {
      return Fail(errors);
    }
    return Success;
  }

  /** With the check as written, a valid address next to an empty sender name is reported as
      an invalid address, so one missing name yields two messages. */
  lemma SenderEmailCheckTestsSenderName()
    ensures var accepts := (e: string) => e == "shop@example.com";
      var o := SmtpSettings(Some("smtp.example.com"), 587, true, Some("shop"), Some("secret"), Some("shop@example.com"), Some(""));
      && EmailOk(o.senderEmail, accepts)
      && SenderEmailCheckFails(o, accepts)
      && IsNullOrEmpty(o.senderName)
  {
  }

  /** The intended check fails exactly when the address is not valid, whatever the sender name. */
  lemma IntendedSenderEmailCheckIgnoresSenderName(o: SmtpSettings, isValidEmail: string -> bool, name: Option<string>)
    ensures SenderEmailCheckFailsIntended(o.(senderName := name), isValidEmail) == SenderEmailCheckFailsIntended(o, isValidEmail)
  {
  }

  /** The two checks agree whenever a sender name is given. */
  lemma SenderEmailChecksAgreeWithName(o: SmtpSettings, isValidEmail: string -> bool)
    requires !IsNullOrEmpty(o.senderName)
    ensures SenderEmailCheckFails(o, isValidEmail) == SenderEmailCheckFailsIntended(o, isValidEmail)
  {
  }
}
