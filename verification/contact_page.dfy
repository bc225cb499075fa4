/**
 * The contact form: its validation rules and messages, and what a submit
 * does. The form is a front-end demonstration; a valid submit sends
 * nothing anywhere.
 */
module ContactPage {
  /** The form's values as its inputs hold them (an untouched input holds ""). */
  datatype ContactForm = ContactForm(name: string, email: string, eventType: string, date: string, message: string)

  datatype FieldName = NameField | EmailField | EventTypeField | MessageField

  datatype FieldError = FieldError(field: FieldName, message: string)

  datatype Toast = Toast(title: string, description: string, duration: nat)

  /** A submit either shows the errors, keeping the values, or confirms and clears the form. */
  datatype SubmitOutcome =
    | Rejected(errors: seq<FieldError>, form: ContactForm)
    | Sent(toast: Toast, form: ContactForm)

  const MinNameLength: nat := 2
  const MinEventTypeLength: nat := 1
  const MinMessageLength: nat := 10

  const NameMessage: string := "Name is required"
  const EmailMessage: string := "Invalid email address"
  const EventTypeMessage: string := "Please select an event type"
  const MessageMessage: string := "Message must be at least 10 characters"

  const SentToast: Toast :=
    Toast("Message Sent!", "We'll get back to you within 24 hours to schedule your consultation.", 5000)

  /** The form as a reset leaves it: every input empty, the select on its "Select type..." option. */
  const EmptyForm: ContactForm := ContactForm("", "", "", "", "")

  /** The check for each field; the email syntax check is a parameter. */
  function Check(f: ContactForm, field: FieldName, isEmail: string -> bool): bool {
    match field
    case NameField => |f.name| >= MinNameLength
    case EmailField => isEmail(f.email)
    case EventTypeField => |f.eventType| >= MinEventTypeLength
    case MessageField => |f.message| >= MinMessageLength
  }

  function MessageFor(field: FieldName): string {
    match field
    case NameField => NameMessage
    case EmailField => EmailMessage
    case EventTypeField => EventTypeMessage
    case MessageField => MessageMessage
  }

  const Fields: seq<FieldName> := [NameField, EmailField, EventTypeField, MessageField]

  lemma AllFieldsListed()
    ensures forall fld: FieldName :: fld in Fields
  {
    forall fld: FieldName ensures fld in Fields {
      if fld.NameField? { assert Fields[0] == fld; }
      else if fld.EmailField? { assert Fields[1] == fld; }
      else if fld.EventTypeField? { assert Fields[2] == fld; }
      else { assert Fields[3] == fld; }
    }
  }

  /** Every failing field's error, in form order. */
  function Validate(f: ContactForm, isEmail: string -> bool): (errs: seq<FieldError>)
    ensures |errs| <= |Fields|
    ensures forall e | e in errs :: e.message == MessageFor(e.field) && !Check(f, e.field, isEmail)
    ensures forall fld: FieldName :: !Check(f, fld, isEmail) ==> FieldError(fld, MessageFor(fld)) in errs
  {
    AllFieldsListed();
    ErrorsFor(f, Fields, isEmail)
  }

  function ErrorsFor(f: ContactForm, fields: seq<FieldName>, isEmail: string -> bool): (errs: seq<FieldError>)
    ensures |errs| <= |fields|
    ensures forall e | e in errs :: e.field in fields && e.message == MessageFor(e.field) && !Check(f, e.field, isEmail)
    ensures forall fld | fld in fields && !Check(f, fld, isEmail) :: FieldError(fld, MessageFor(fld)) in errs
  {
    if |fields| == 0 then []
    else
      var rest := ErrorsFor(f, fields[1..], isEmail);
      if Check(f, fields[0], isEmail) then rest else [FieldError(fields[0], MessageFor(fields[0]))] + rest
  }

  predicate Valid(f: ContactForm, isEmail: string -> bool) {
    forall fld: FieldName :: Check(f, fld, isEmail)
  }

  /** `handleSubmit(onSubmit)`: the handler runs only for a valid form. */
  function Submit(f: ContactForm, isEmail: string -> bool): (out: SubmitOutcome)
    ensures out.Sent? <==> Valid(f, isEmail)
    ensures out.Sent? ==> out.toast == SentToast && out.toast.title == "Message Sent!" && out.form == EmptyForm
    ensures out.Rejected? ==> out.form == f && |out.errors| > 0 && out.errors == Validate(f, isEmail)
  {
    var errs := Validate(f, isEmail);
    ValidIffNoErrors(f, isEmail);
    if |errs| == 0 then Sent(SentToast, EmptyForm) else Rejected(errs, f)
  }

  /** The form is valid exactly when it has no errors. */
  lemma ValidIffNoErrors(f: ContactForm, isEmail: string -> bool)
    ensures Valid(f, isEmail) <==> Validate(f, isEmail) == []
  {
    if !Valid(f, isEmail) {
      var fld: FieldName :| !Check(f, fld, isEmail);
      assert FieldError(fld, MessageFor(fld)) in Validate(f, isEmail);
    }
    var errs := Validate(f, isEmail);
    if errs != [] {
      assert errs[0] in errs;
    }
  }

  /** The date is optional and never affects validation. */
  lemma DateIrrelevant(f: ContactForm, d: string, isEmail: string -> bool)
    ensures Validate(f.(date := d), isEmail) == Validate(f, isEmail)
    ensures Submit(f.(date := d), isEmail).Sent? == Submit(f, isEmail).Sent?
  {
    forall fld: FieldName ensures Check(f.(date := d), fld, isEmail) == Check(f, fld, isEmail) {
    }
    SameChecksSameErrors(f, f.(date := d), Fields, isEmail);
  }

  lemma {:induction false} SameChecksSameErrors(f: ContactForm, g: ContactForm, fields: seq<FieldName>, isEmail: string -> bool)
    requires forall fld: FieldName :: Check(f, fld, isEmail) == Check(g, fld, isEmail)
    ensures ErrorsFor(f, fields, isEmail) == ErrorsFor(g, fields, isEmail)
    decreases |fields|
  {
    if |fields| > 0 {
      SameChecksSameErrors(f, g, fields[1..], isEmail);
    }
  }

  /**
   * A sent form is cleared, and the cleared form is rejected with the name,
   * event-type and message errors: submitting again without typing sends nothing.
   */
  lemma ResubmitAfterSendRejected(f: ContactForm, isEmail: string -> bool)
    requires Submit(f, isEmail).Sent?
    ensures Submit(Submit(f, isEmail).form, isEmail).Rejected?
    ensures var errs := Submit(Submit(f, isEmail).form, isEmail).errors;
      FieldError(NameField, NameMessage) in errs
      && FieldError(EventTypeField, EventTypeMessage) in errs
      && FieldError(MessageField, MessageMessage) in errs
  {
    var g := Submit(f, isEmail).form;
    assert g == EmptyForm;
    assert !Check(g, NameField, isEmail);
    assert !Check(g, EventTypeField, isEmail);
    assert !Check(g, MessageField, isEmail);
    var errs := Validate(g, isEmail);
    assert FieldError(NameField, MessageFor(NameField)) in errs;
    assert FieldError(EventTypeField, MessageFor(EventTypeField)) in errs;
    assert FieldError(MessageField, MessageFor(MessageField)) in errs;
    assert Submit(g, isEmail) == Rejected(errs, g);
  }

  /** The placeholder option of the event-type select is refused; any real option passes. */
  lemma EventTypeOptions(f: ContactForm, isEmail: string -> bool)
    ensures !Check(f.(eventType := ""), EventTypeField, isEmail)
    ensures forall t | t in ["Wedding", "Corporate", "Social", "Other"] :: Check(f.(eventType := t), EventTypeField, isEmail)
  {
  }
}
