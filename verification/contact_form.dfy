/**
 * The contact form: per-field validation with one optional error per field,
 * error clearing as the user types, and a submission that first validates,
 * then runs a simulated send (a 1.5 s timer), then shows a success status
 * that a 5 s timer clears. The timers are the methods `FinishSending` and
 * `ClearStatus`, called when they fire.
 */
module ContactForm {
  import opened Wrappers
  import opened Text

  datatype FormData = FormData(name: string, email: string, message: string)

  const EmptyForm := FormData("", "", "")

  /** `FormErrors`: an absent key is `None`. */
  datatype FormErrors = FormErrors(name: Option<string>, email: Option<string>, message: Option<string>)

  const NoErrors := FormErrors(None, None, None)

  datatype Field = NameField | EmailField | MessageField

  datatype SubmitStatus = Idle | Success | Error

  const NameRequired := "Nome é obrigatório"
  const NameTooShort := "Nome deve ter pelo menos 3 caracteres"
  const EmailRequired := "Email é obrigatório"
  const EmailInvalid := "Email inválido"
  const MessageRequired := "Mensagem é obrigatória"
  const MessageTooShort := "Mensagem deve ter pelo menos 10 caracteres"
  const SentMessage := "Mensagem enviada com sucesso! Entraremos em contato em breve."

  // ---------------------------------------------------------------------------
  // Per-field rules
  // ---------------------------------------------------------------------------

  /** The name's error: required when blank, too short under three characters once trimmed. */
  function NameError(name: string): (r: Option<string>)
    ensures r == None <==> |Trim(name)| >= 3
    ensures Trim(name) == "" ==> r == Some(NameRequired)
    ensures Trim(name) != "" && |Trim(name)| < 3 ==> r == Some(NameTooShort)
  {
    if Trim(name) == "" then Some(NameRequired)
    else if |Trim(name)| < 3 then Some(NameTooShort)
    else None
  }

  /**
   * The e-mail's error: required when blank once trimmed, otherwise invalid
   * when the untrimmed text fails the e-mail pattern; so it is absent exactly
   * for an address the pattern accepts.
   */
  function EmailError(email: string): (r: Option<string>)
    ensures r == None <==> ValidEmail(email)
    ensures Trim(email) == "" ==> r == Some(EmailRequired)
    ensures Trim(email) != "" && !ValidEmail(email) ==> r == Some(EmailInvalid)
  {
    EmailAcceptedIsNotBlank(email);
    if Trim(email) == "" then Some(EmailRequired)
    else if !ValidEmail(email) then Some(EmailInvalid)
    else None
  }

  lemma EmailAcceptedIsNotBlank(email: string)
    ensures ValidEmail(email) ==> Trim(email) != ""
  {
    if ValidEmail(email) {
      ValidEmailShape(email);
    }
  }

  /** The message's error: required when blank, too short under ten characters once trimmed. */
  function MessageError(message: string): (r: Option<string>)
    ensures r == None <==> |Trim(message)| >= 10
    ensures Trim(message) == "" ==> r == Some(MessageRequired)
    ensures Trim(message) != "" && |Trim(message)| < 10 ==> r == Some(MessageTooShort)
  {
    if Trim(message) == "" then Some(MessageRequired)
    else if |Trim(message)| < 10 then Some(MessageTooShort)
    else None
  }

  /** What the form accepts. */
  predicate Acceptable(d: FormData) {
    |Trim(d.name)| >= 3 && ValidEmail(d.email) && |Trim(d.message)| >= 10
  }

  /** The three fields are free of errors exactly when the form is acceptable. */
  lemma NoErrorsIffAcceptable(d: FormData)
    ensures NameError(d.name).None? && EmailError(d.email).None? && MessageError(d.message).None? <==> Acceptable(d)
  {
  }

  /** Whitespace around the name never decides its error. */
  lemma NameErrorIgnoresSurroundingSpace(name: string)
    ensures NameError(Trim(name)) == NameError(name)
  {
    TrimIdempotent(name);
  }

  /** Whitespace around the message never decides its error (unlike the e-mail's, checked untrimmed). */
  lemma MessageErrorIgnoresSurroundingSpace(message: string)
    ensures MessageError(Trim(message)) == MessageError(message)
  {
    TrimIdempotent(message);
  }

  // ---------------------------------------------------------------------------
  // The form's state
  // ---------------------------------------------------------------------------

  class Form {
    var formData: FormData
    var errors: FormErrors
    var isSubmitting: bool
    var submitStatus: SubmitStatus
    var submitMessage: string

    constructor()
      ensures formData == EmptyForm && errors == NoErrors
      ensures !isSubmitting && submitStatus == Idle && submitMessage == ""
    {
      formData := EmptyForm;
      errors := NoErrors;
      isSubmitting := false;
      submitStatus := Idle;
      submitMessage := "";
    }

    /** `validateForm`: fill a fresh error record field by field, store it, and report whether it is empty. */
    method ValidateForm() returns (ok: bool)
      modifies this
      ensures errors == FormErrors(NameError(formData.name), EmailError(formData.email), MessageError(formData.message))
      ensures ok <==> Acceptable(formData)
      ensures ok <==> errors == NoErrors
      ensures formData == old(formData) && isSubmitting == old(isSubmitting)
      ensures submitStatus == old(submitStatus) && submitMessage == old(submitMessage)
    {
      var d := formData;
      var newErrors := NoErrors;
      var name, email, message := Trim(d.name), Trim(d.email), Trim(d.message);
      if name == "" {
        newErrors := newErrors.(name := Some(NameRequired));
      } else if |name| < 3 {
        newErrors := newErrors.(name := Some(NameTooShort));
      }
      assert newErrors.name == NameError(d.name);
      if email == "" {
        newErrors := newErrors.(email := Some(EmailRequired));
      } else if !ValidEmail(d.email) {
        newErrors := newErrors.(email := Some(EmailInvalid));
      }
      assert newErrors.email == EmailError(d.email);
      if message == "" {
        newErrors := newErrors.(message := Some(MessageRequired));
      } else if |message| < 10 {
        newErrors := newErrors.(message := Some(MessageTooShort));
      }
      assert newErrors == FormErrors(NameError(d.name), EmailError(d.email), MessageError(d.message));
      errors := newErrors;
      ok := errors.name.None? && errors.email.None? && errors.message.None?;
      NoErrorsIffAcceptable(d);
    }

    /** `handleChange`: store the value under the field's name and clear that field's error, if any. */
    method HandleChange(field: Field, value: string)
      modifies this
      ensures field.NameField? ==> formData == old(formData).(name := value) && errors == old(errors).(name := None)
      ensures field.EmailField? ==> formData == old(formData).(email := value) && errors == old(errors).(email := None)
      ensures field.MessageField? ==> formData == old(formData).(message := value) && errors == old(errors).(message := None)
      ensures isSubmitting == old(isSubmitting) && submitStatus == old(submitStatus) && submitMessage == old(submitMessage)
    {
      match field
      case NameField =>
        formData := formData.(name := value);
        if errors.name.Some? {
          errors := errors.(name := None);
        }
      case EmailField =>
        formData := formData.(email := value);
        if errors.email.Some? {
          errors := errors.(email := None);
        }
      case MessageField =>
        formData := formData.(message := value);
        if errors.message.Some? {
          errors := errors.(message := None);
        }
    }

    /**
     * `handleSubmit` up to its `await`: a form that fails validation stops with
     * its errors shown; an acceptable one starts sending with the status idle.
     */
    method HandleSubmit() returns (started: bool)
      modifies this
      ensures started <==> Acceptable(old(formData))
      ensures errors == FormErrors(NameError(old(formData).name), EmailError(old(formData).email), MessageError(old(formData).message))
      ensures formData == old(formData)
      ensures started ==> isSubmitting && submitStatus == Idle && submitMessage == old(submitMessage)
      ensures !started ==> isSubmitting == old(isSubmitting) && submitStatus == old(submitStatus)
                           && submitMessage == old(submitMessage)
    {
      var ok := ValidateForm();
      if !ok {
        return false;
      }
      isSubmitting := true;
      submitStatus := Idle;
      started := true;
    }

    /** The simulated send completes: success is shown, the form is emptied and sending ends. */
    method FinishSending()
      modifies this
      ensures submitStatus == SubmitStatus.Success && submitMessage == SentMessage
      ensures formData == EmptyForm && !isSubmitting
      ensures errors == old(errors)
    {
      submitStatus := SubmitStatus.Success;
      submitMessage := SentMessage;
      formData := EmptyForm;
      isSubmitting := false;
    }

    /** The 5 s timer after a success: the status returns to idle and its message is cleared. */
    method ClearStatus()
      modifies this
      ensures submitStatus == Idle && submitMessage == ""
      ensures formData == old(formData) && errors == old(errors) && isSubmitting == old(isSubmitting)
    {
      submitStatus := Idle;
      submitMessage := "";
    }
  }

  /** The emptied form, submitted again, reports every field as required. */
  lemma EmptyFormRequiresAll()
    ensures NameError(EmptyForm.name) == Some(NameRequired)
    ensures EmailError(EmptyForm.email) == Some(EmailRequired)
    ensures MessageError(EmptyForm.message) == Some(MessageRequired)
  {
    assert Trim("") == "";
  }
}
