/** The contact form's submit handler: three trimmed fields checked against a
    fixed-priority list of rules; the first failing rule is reported in red,
    otherwise a success message in light green and the form is reset. */
module ContactForm {
  import opened Text

  /** The validation rules, in the order the handler checks them. */
  datatype Rule = MissingField | ShortName | InvalidEmail | ShortMessage

  /** Position of a rule in the checking order. */
  function Rank(rule: Rule): nat {
    match rule
    case MissingField => 0
    case ShortName => 1
    case InvalidEmail => 2
    case ShortMessage => 3
  }

  /** What each rule rejects, stated on its own, independently of the order.
      The email rule is the handler's pair of `includes` tests. */
  function Violates(rule: Rule, name: string, email: string, message: string): (b: bool)
    ensures rule == InvalidEmail ==> (b <==> !Includes(email, "@") || !Includes(email, "."))
  {
    IncludesChar(email, '@');
    IncludesChar(email, '.');
    match rule
    case MissingField => name == [] || email == [] || message == []
    case ShortName => |name| < 3
    case InvalidEmail => '@' !in email || '.' !in email
    case ShortMessage => |message| < 10
  }

  datatype Verdict = Accepted | Rejected(rule: Rule)

  /** The handler's decision chain on already-trimmed fields. A rejection names
      a rule the input violates, and no rule checked before it is violated;
      the input is accepted exactly when it violates no rule. */
  function Validate(name: string, email: string, message: string): (v: Verdict)
    ensures v.Rejected? ==> Violates(v.rule, name, email, message)
    ensures v.Rejected? ==> forall r :: Rank(r) < Rank(v.rule) ==> !Violates(r, name, email, message)
    ensures v.Accepted? ==> forall r :: !Violates(r, name, email, message)
  {
    if name == [] || email == [] || message == [] then Rejected(MissingField)
    else if |name| < 3 then Rejected(ShortName)
    else if !Includes(email, "@") || !Includes(email, ".") then Rejected(InvalidEmail)
    else if |message| < 10 then Rejected(ShortMessage)
    else Accepted
  }

  /** A later rule is never reported while an earlier one fails: the reported
      rule is the earliest violated one. */
  lemma EarliestViolationReported(name: string, email: string, message: string, rule: Rule)
    requires Violates(rule, name, email, message)
    ensures Validate(name, email, message).Rejected?
    ensures Rank(Validate(name, email, message).rule) <= Rank(rule)
  {
  }

  /** The email rule only asks that '@' and '.' both appear, in any order and
      position: "a.b@" passes it, so with the name "Jo" the name rule is the one
      reported. */
  lemma PermissiveEmailExample()
    ensures !Violates(InvalidEmail, "Jo", "a.b@", "short")
    ensures Validate("Jo", "a.b@", "short") == Rejected(ShortName)
  {
  }

  /** The fields are trimmed before the checks, so a field holding only white
      space counts as empty and is reported by the first rule. */
  lemma BlankFieldIsMissing(name: string, email: string, message: string)
    requires forall k :: 0 <= k < |email| ==> IsSpace(email[k])
    ensures Validate(Trim(name), Trim(email), Trim(message)) == Rejected(MissingField)
  {
    TrimEmpty(email);
  }

  /** A blank field also breaks a later rule (a short name, an email without
      '@', a short message), so the first rule decides only which message a
      blank field is reported with. */
  lemma MissingFieldAlsoFailsLater(name: string, email: string, message: string)
    requires Violates(MissingField, name, email, message)
    ensures exists r :: Rank(r) > Rank(MissingField) && Violates(r, name, email, message)
  {
    if name == [] {
      assert Violates(ShortName, name, email, message);
    } else if email == [] {
      assert Violates(InvalidEmail, name, email, message);
    } else {
      assert Violates(ShortMessage, name, email, message);
    }
  }

  const SUCCESS_MESSAGE := "Message sent successfully!"

  /** The text shown for each rejection: never the success text. */
  function RuleMessage(rule: Rule): (m: string)
    ensures m != SUCCESS_MESSAGE
  {
    match rule
    case MissingField => "Please fill in all fields."
    case ShortName => "Name must be at least 3 characters."
    case InvalidEmail => "Enter a valid email."
    case ShortMessage => "Message must be at least 10 characters."
  }

  /** Inline `style.color` of the status element; `Unset` before any submit. */
  datatype Color = Unset | Red | LightGreen

  /** The form, its three controls' raw values, and the status element. */
  class Form {
    var name: string
    var email: string
    var message: string
    var statusText: string
    var statusColor: Color

    constructor (name: string, email: string, message: string)
      ensures this.name == name && this.email == email && this.message == message
      ensures statusText == [] && statusColor == Unset
    {
      this.name, this.email, this.message := name, email, message;
      statusText, statusColor := [], Unset;
    }

    /** One submit. The verdict is that of the trimmed fields. On a rejection
        the status is the failing rule's message in red and the fields are left
        as typed; on acceptance the status is the success message in light
        green and the fields are reset to empty. */
    method Submit() returns (v: Verdict)
      modifies this
      ensures v == Validate(Trim(old(name)), Trim(old(email)), Trim(old(message)))
      ensures v.Rejected? ==> statusColor == Red && statusText == RuleMessage(v.rule)
      ensures v.Rejected? ==> name == old(name) && email == old(email) && message == old(message)
      ensures v.Accepted? ==> statusColor == LightGreen && statusText == SUCCESS_MESSAGE
      ensures v.Accepted? ==> name == [] && email == [] && message == []
    {
      v := Validate(Trim(name), Trim(email), Trim(message));
      if v.Rejected? {
        statusText, statusColor := RuleMessage(v.rule), Red;
      } else {
        statusText, statusColor := SUCCESS_MESSAGE, LightGreen;
        name, email, message := [], [], [];
      }
    }
  }

  /** The status text alone tells the outcome: each rejection message differs
      from the success message and from the message of every other rule. */
  lemma StatusTellsOutcome(rule: Rule, other: Rule)
    ensures RuleMessage(rule) != SUCCESS_MESSAGE
    ensures RuleMessage(rule) == RuleMessage(other) ==> rule == other
  {
  }
}
