/**
 * `FormExample`: a controlled contact form. One state cell holds the four field
 * values, one the error messages by field, one whether the form was submitted.
 * `validateForm` rebuilds the errors from scratch, field by field.
 */
module FormExample {
  import JsText

  /** The `name` attributes of the four inputs. */
  datatype Field = Name | Email | Message | Agree

  /** `formData`. */
  datatype FormData = FormData(name: string, email: string, message: string, agree: bool)

  const EmptyForm: FormData := FormData("", "", "", false)

  const NameRequired := "Name is required"
  const EmailRequired := "Email is required"
  const EmailInvalid := "Please enter a valid email address"
  const MessageRequired := "Message is required"
  const AgreeRequired := "You must agree to the terms"

  /** The errors `validateForm` reports for the given data: at most one per field. */
  function FormErrors(d: FormData): (errors: map<Field, string>)
    ensures Name in errors <==> JsText.IsBlank(d.name)
    ensures Email in errors <==> JsText.IsBlank(d.email) || !JsText.LooksLikeEmail(d.email)
    ensures Message in errors <==> JsText.IsBlank(d.message)
    ensures Agree in errors <==> !d.agree
    ensures Name in errors ==> errors[Name] == NameRequired
    ensures Email in errors ==> errors[Email] == (if JsText.IsBlank(d.email) then EmailRequired else EmailInvalid)
    ensures Message in errors ==> errors[Message] == MessageRequired
    ensures Agree in errors ==> errors[Agree] == AgreeRequired
  {
    AgreeCheck(d, MessageCheck(d, EmailCheck(d, NameCheck(d, map[]))))
  }

  // The four checks of `validateForm`, each adding at most its own field's error.

  function NameCheck(d: FormData, e: map<Field, string>): map<Field, string> {
    if JsText.IsBlank(d.name) then e[Name := NameRequired] else e
  }

  function EmailCheck(d: FormData, e: map<Field, string>): map<Field, string> {
    if JsText.IsBlank(d.email) then e[Email := EmailRequired]
    else if !JsText.LooksLikeEmail(d.email) then e[Email := EmailInvalid]
    else e
  }

  function MessageCheck(d: FormData, e: map<Field, string>): map<Field, string> {
    if JsText.IsBlank(d.message) then e[Message := MessageRequired] else e
  }

  function AgreeCheck(d: FormData, e: map<Field, string>): map<Field, string> {
    if !d.agree then e[Agree := AgreeRequired] else e
  }

  /** The form passes exactly when every field is filled in, the email has the `x@y.z` shape, and the box is ticked. */
  lemma ValidIffComplete(d: FormData)
    ensures FormErrors(d) == map[] <==>
      && !JsText.IsBlank(d.name) && !JsText.IsBlank(d.message) && d.agree
      && !JsText.IsBlank(d.email) && JsText.MatchesEmailPattern(d.email)
  {
    JsText.LooksLikeEmailMatchesPattern(d.email);
    var e := FormErrors(d);
    if e != map[] {
      var f :| f in e;
    }
  }

  /** A blank form gets all four errors. */
  lemma BlankFormErrors()
    ensures FormErrors(EmptyForm) == map[Name := NameRequired, Email := EmailRequired,
                                         Message := MessageRequired, Agree := AgreeRequired]
  {
    assert JsText.IsBlank("");
  }

  /** A filled-in form with a well-formed address gets none. */
  lemma FilledFormPasses()
    ensures FormErrors(FormData("Dipak", "john@example.com", "Hello", true)) == map[]
  {
    JsText.SampleEmails();
    assert !JsText.IsBlank("Dipak") by { assert !JsText.IsWhitespace("Dipak"[0]); }
    assert !JsText.IsBlank("john@example.com") by { assert !JsText.IsWhitespace("john@example.com"[0]); }
    assert !JsText.IsBlank("Hello") by { assert !JsText.IsWhitespace("Hello"[0]); }
  }

  /** The component instance: its three state cells and their handlers. */
  class ContactForm {
    var formData: FormData
    var errors: map<Field, string>
    var isSubmitted: bool

    constructor()
      ensures formData == EmptyForm && errors == map[] && !isSubmitted
    {
      formData := EmptyForm;
      errors := map[];
      isSubmitted := false;
    }

    /**
     * `handleInputChange`: the checkbox (`agree`) takes `checked`, a text input takes
     * `value`; an error already showing for that field is blanked, not removed.
     */
    method HandleInputChange(field: Field, value: string, checked: bool)
      modifies this
      ensures formData == match field
        case Name => old(formData).(name := value)
        case Email => old(formData).(email := value)
        case Message => old(formData).(message := value)
        case Agree => old(formData).(agree := checked)
      ensures field in old(errors) && old(errors)[field] != "" ==> errors == old(errors)[field := ""]
      ensures !(field in old(errors) && old(errors)[field] != "") ==> errors == old(errors)
      ensures errors.Keys == old(errors).Keys
      ensures isSubmitted == old(isSubmitted)
    {
      match field {
        case Name => formData := formData.(name := value);
        case Email => formData := formData.(email := value);
        case Message => formData := formData.(message := value);
        case Agree => formData := formData.(agree := checked);
      }
      if field in errors && errors[field] != "" {
        errors := errors[field := ""];
      }
    }

    /** `validateForm`: the errors are replaced by those of the current data; the result says whether there are none. */
    method ValidateForm() returns (ok: bool)
      modifies this
      ensures errors == FormErrors(formData)
      ensures ok <==> errors == map[]
      ensures formData == old(formData) && isSubmitted == old(isSubmitted)
    {
      var newErrors: map<Field, string> := map[];
      if JsText.IsBlank(formData.name) {
        newErrors := newErrors[Name := NameRequired];
      }
      assert newErrors == NameCheck(formData, map[]);
      if JsText.IsBlank(formData.email) {
        newErrors := newErrors[Email := EmailRequired];
      } else if !JsText.LooksLikeEmail(formData.email) {
        newErrors := newErrors[Email := EmailInvalid];
      }
      assert newErrors == EmailCheck(formData, NameCheck(formData, map[]));
      if JsText.IsBlank(formData.message) {
        newErrors := newErrors[Message := MessageRequired];
      }
      assert newErrors == MessageCheck(formData, EmailCheck(formData, NameCheck(formData, map[])));
      if !formData.agree {
        newErrors := newErrors[Agree := AgreeRequired];
      }
      errors := newErrors;
      ok := |newErrors| == 0;
    }

    /** `handleSubmit`: validates, and marks the form submitted only when validation passed. */
    method HandleSubmit()
      modifies this
      ensures errors == FormErrors(formData) && formData == old(formData)
      ensures isSubmitted == (old(isSubmitted) || FormErrors(formData) == map[])
    {
      var ok := ValidateForm();
      if ok {
        isSubmitted := true;
      }
    }

    method ResetForm()
      modifies this
      ensures formData == EmptyForm && errors == map[] && !isSubmitted
    {
      formData := EmptyForm;
      errors := map[];
      isSubmitted := false;
    }
  }
}
