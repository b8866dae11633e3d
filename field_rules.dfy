/**
  The decision `FormValidator.validateField` takes for one control (script.js:124-192),
  apart from the marking of the control, which FormValidation models as state.
 */
module FieldRules {
  import opened JsText
  import opened Patterns

  /** What `validateField` reads of a control: `name`, `id`, `type`, the `required` attribute, `checked`, `value`. */
  datatype Field = Field(name: string, id: string, kind: string, required: bool, checked: bool, value: string)

  /** The pair of locals `isValid` and `errorMessage` at the end of `validateField`. */
  datatype Verdict = Verdict(valid: bool, message: string)

  const Accept := Verdict(true, "")

  /** `field.name || field.id` */
  function FieldName(f: Field): string {
    if f.name != "" then f.name else f.id
  }

  /** A required checkbox left unticked: the consent box. */
  predicate ConsentMissing(f: Field) {
    f.kind == "checkbox" && f.required && !f.checked
  }

  /** The labels of the `switch` on the field name. */
  const DispatchedNames: set<string> :=
    {"name", "firstName", "lastName", "email", "phone", "message", "destination", "service", "travelDate"}

  const PersonNames: set<string> := {"name", "firstName", "lastName"}

  /**
    The `switch` on the field name, which only runs on a non-empty trimmed value. `past`
    stands for the comparison of `new Date(value)` with local midnight today.
   */
  function CheckByName(fieldName: string, required: bool, value: string, past: string -> bool): (v: Verdict)
    ensures v.valid <==> v.message == ""
  {
    if fieldName == "name" || fieldName == "firstName" || fieldName == "lastName" then
      if NamePattern(value) then Accept
      else Verdict(false,
        if fieldName in ErrorMessages && ErrorMessages[fieldName] != "" then ErrorMessages[fieldName]
        else NameText)
    else if fieldName == "email" then
      if EmailPattern(value) then Accept else Verdict(false, EmailText)
    else if fieldName == "phone" then
      if required && !PhonePattern(value) then Verdict(false, PhoneText) else Accept
    else if fieldName == "message" then
      if MessagePattern(value) then Accept else Verdict(false, MessageText)
    else if fieldName == "destination" || fieldName == "service" then
      if value == "" || value == "default" then Verdict(false, ErrorMessages[fieldName]) else Accept
    else if fieldName == "travelDate" then
      if past(value) then Verdict(false, PastDateMessage) else Accept
    else
      Accept
  }

  /**
    The verdict of `validateField`. A field is rejected exactly when it gets a message, so
    no rejected field is ever shown with an empty error text.
   */
  function ValidateField(f: Field, past: string -> bool): (v: Verdict)
    ensures v.valid <==> v.message == ""
  {
    var value := Trim(f.value);
    var reached :=
      if f.required && value == "" then Verdict(false, RequiredText)
      else if value != "" then CheckByName(FieldName(f), f.required, value, past)
      else Accept;
    if ConsentMissing(f) then Verdict(false, PrivacyText) else reached
  }

  /** A required field holding only white space is rejected with the generic text, unless the consent text wins. */
  lemma RequiredEmptyRejected(f: Field, past: string -> bool)
    requires f.required && AllSpace(f.value)
    ensures ValidateField(f, past) ==
      Verdict(false, if ConsentMissing(f) then PrivacyText else RequiredText)
  {
    TrimEmptyIff(f.value);
  }

  /** An optional field holding only white space is accepted, whatever its name. */
  lemma OptionalEmptyAccepted(f: Field, past: string -> bool)
    requires !f.required && AllSpace(f.value)
    ensures ValidateField(f, past) == Accept
  {
    TrimEmptyIff(f.value);
  }

  /** Past the two emptiness checks and the consent override, the verdict is the switch's. */
  lemma Reached(f: Field, past: string -> bool)
    requires !ConsentMissing(f) && !AllSpace(f.value)
    ensures ValidateField(f, past) == CheckByName(FieldName(f), f.required, Trim(f.value), past)
  {
    TrimEmptyIff(f.value);
  }

  /** Helper for NameRuleIff: the `switch` on a person-name field. */
  lemma CheckPerson(n: string, required: bool, value: string, past: string -> bool)
    requires n in PersonNames
    ensures CheckByName(n, required, value, past) ==
      if NamePattern(value) then Accept else Verdict(false, ErrorMessages[n])
  {
  }

  /** Helper for EmailRuleIff: the `email` case of the `switch`. */
  lemma CheckEmail(required: bool, value: string, past: string -> bool)
    ensures CheckByName("email", required, value, past) ==
      if EmailPattern(value) then Accept else Verdict(false, EmailText)
  {
  }

  /** Helper for PhoneRuleIff: the `phone` case of the `switch`. */
  lemma CheckPhone(required: bool, value: string, past: string -> bool)
    ensures CheckByName("phone", required, value, past) ==
      if required && !PhonePattern(value) then Verdict(false, PhoneText) else Accept
  {
  }

  /** Helper for MessageRuleIff: the `message` case of the `switch`. */
  lemma CheckMessage(required: bool, value: string, past: string -> bool)
    ensures CheckByName("message", required, value, past) ==
      if MessagePattern(value) then Accept else Verdict(false, MessageText)
  {
  }

  /** Helper for ChoiceRuleIff: the `destination`/`service` case of the `switch`. */
  lemma CheckChoice(n: string, required: bool, value: string, past: string -> bool)
    requires n == "destination" || n == "service"
    ensures CheckByName(n, required, value, past) ==
      if value == "" || value == "default" then Verdict(false, ErrorMessages[n]) else Accept
  {
  }

  /** Helper for TravelDateRuleIff: the `travelDate` case of the `switch`. */
  lemma CheckTravelDate(required: bool, value: string, past: string -> bool)
    ensures CheckByName("travelDate", required, value, past) ==
      if past(value) then Verdict(false, PastDateMessage) else Accept
  {
  }

  /** Helper for UndispatchedNameIff: a name the `switch` has no case for is accepted. */
  lemma CheckOther(n: string, required: bool, value: string, past: string -> bool)
    requires n !in DispatchedNames
    ensures CheckByName(n, required, value, past) == Accept
  {
  }

  /** A field whose name no rule is attached to fails only for being required and empty, or for missing consent. */
  lemma UndispatchedNameIff(f: Field, past: string -> bool)
    requires FieldName(f) !in DispatchedNames
    ensures ValidateField(f, past).valid <==> !ConsentMissing(f) && !(f.required && AllSpace(f.value))
  {
    TrimEmptyIff(f.value);
    if !ConsentMissing(f) && !AllSpace(f.value) {
      Reached(f, past);
      CheckOther(FieldName(f), f.required, Trim(f.value), past);
    }
  }

  /** A required, unticked checkbox is rejected with the consent text whatever was decided before. */
  lemma ConsentOverrides(f: Field, past: string -> bool)
    requires ConsentMissing(f)
    ensures ValidateField(f, past) == Verdict(false, PrivacyText)
  {
  }

  /** The three name fields: a non-empty value passes iff it matches the name pattern; a failure carries the field's own text. */
  lemma NameRuleIff(f: Field, past: string -> bool)
    requires FieldName(f) in PersonNames && !ConsentMissing(f) && !AllSpace(f.value)
    ensures ValidateField(f, past).valid <==> NamePattern(Trim(f.value))
    ensures !ValidateField(f, past).valid ==> ValidateField(f, past).message == ErrorMessages[FieldName(f)]
  {
    Reached(f, past);
    CheckPerson(FieldName(f), f.required, Trim(f.value), past);
  }

  /** The email field: a non-empty value passes iff it has the shape described by EmailShape. */
  lemma EmailRuleIff(f: Field, past: string -> bool)
    requires FieldName(f) == "email" && !ConsentMissing(f) && !AllSpace(f.value)
    ensures ValidateField(f, past).valid <==> EmailShape(Trim(f.value))
    ensures !ValidateField(f, past).valid ==> ValidateField(f, past).message == EmailText
  {
    Reached(f, past);
    CheckEmail(f.required, Trim(f.value), past);
    EmailPatternIffShape(Trim(f.value));
  }

  /** The phone field: the pattern is enforced only when the field is required; a failure carries the phone text. */
  lemma PhoneRuleIff(f: Field, past: string -> bool)
    requires FieldName(f) == "phone" && !ConsentMissing(f) && !AllSpace(f.value)
    ensures ValidateField(f, past).valid <==> !f.required || PhonePattern(Trim(f.value))
    ensures !ValidateField(f, past).valid ==> ValidateField(f, past).message == PhoneText
  {
    Reached(f, past);
    CheckPhone(f.required, Trim(f.value), past);
  }

  /** The message field: a non-empty value passes iff it is ten UTF-16 units long and has no line break; a failure carries the message text. */
  lemma MessageRuleIff(f: Field, past: string -> bool)
    requires FieldName(f) == "message" && !ConsentMissing(f) && !AllSpace(f.value)
    ensures ValidateField(f, past).valid <==> MessagePattern(Trim(f.value))
    ensures !ValidateField(f, past).valid ==> ValidateField(f, past).message == MessageText
  {
    Reached(f, past);
    CheckMessage(f.required, Trim(f.value), past);
  }

  /** So a message with a line break inside it is rejected, however long it is. */
  lemma MessageLineBreakRejected(f: Field, past: string -> bool, k: nat)
    requires FieldName(f) == "message" && !ConsentMissing(f)
    requires k < |Trim(f.value)| && IsLineTerminator(Trim(f.value)[k])
    ensures !ValidateField(f, past).valid
  {
    TrimEmptyIff(f.value);
    MessageRuleIff(f, past);
  }

  /** The two choice fields: a non-empty value fails only when it is the placeholder `default`. */
  lemma ChoiceRuleIff(f: Field, past: string -> bool)
    requires (FieldName(f) == "destination" || FieldName(f) == "service") && !ConsentMissing(f) && !AllSpace(f.value)
    ensures ValidateField(f, past).valid <==> Trim(f.value) != "default"
    ensures !ValidateField(f, past).valid ==> ValidateField(f, past).message == ErrorMessages[FieldName(f)]
  {
    Reached(f, past);
    TrimEmptyIff(f.value);
    CheckChoice(FieldName(f), f.required, Trim(f.value), past);
  }

  /** The travel date: a non-empty value fails only when it lies before today. */
  lemma TravelDateRuleIff(f: Field, past: string -> bool)
    requires FieldName(f) == "travelDate" && !ConsentMissing(f) && !AllSpace(f.value)
    ensures ValidateField(f, past).valid <==> !past(Trim(f.value))
    ensures !ValidateField(f, past).valid ==> ValidateField(f, past).message == PastDateMessage
  {
    Reached(f, past);
    CheckTravelDate(f.required, Trim(f.value), past);
  }

  /** The name class spans U+00C0..U+00FF whole, so × and ÷ are accepted in a name. */
  lemma NameClassTakesTimesAndDivide()
    ensures NamePattern("A×B") && NamePattern("A÷B")
  {
  }
}
