/**
  `FormValidator` (script.js:103-292) as state: the controls of the form carry the
  `is-invalid` marker and an `.invalid-feedback` element, the submit button carries its
  `disabled` flag, its label and the saved original label. The decision itself is
  FieldRules.ValidateField; the methods here are the marking, the loop over all controls,
  the button handling and the dispatch of a submission's outcome.
 */
module FormValidation {
  import opened Wrappers
  import JsText
  import FieldRules
  import Sanitize

  /** An `.invalid-feedback` element: its text and whether it is displayed (`display: block`). */
  datatype Feedback = Feedback(text: string, shown: bool)

  /** `display: none` on the feedback element, when there is one. */
  function Hidden(fb: Option<Feedback>): (r: Option<Feedback>)
    ensures r.Some? <==> fb.Some?
    ensures r.Some? ==> r.value.text == fb.value.text && !r.value.shown
  {
    match fb
    case None => None
    case Some(f) => Some(f.(shown := false))
  }

  /**
    The feedback a control is left with after `validateField` decided `v`: shown with the
    verdict's text on failure, hidden (if present) on success.
   */
  function FeedbackAfter(v: FieldRules.Verdict, before: Option<Feedback>): Option<Feedback> {
    if v.valid then Hidden(before) else Some(Feedback(v.message, true))
  }

  /** Validating twice in a row leaves the feedback where validating once left it. */
  lemma FeedbackAfterTwice(v: FieldRules.Verdict, before: Option<Feedback>)
    ensures FeedbackAfter(v, FeedbackAfter(v, before)) == FeedbackAfter(v, before)
  {
  }

  /** An `input`, `select` or `textarea` of the form, with its marker and feedback element. */
  class Control {
    const name: string
    const id: string
    const kind: string
    const required: bool
    var checked: bool
    var value: string
    /** `classList.contains('is-invalid')` */
    var invalid: bool
    /** The `.invalid-feedback` element found in the control's parent, if any. */
    var feedback: Option<Feedback>

    constructor(name: string, id: string, kind: string, required: bool, checked: bool, value: string)
      ensures this.name == name && this.id == id && this.kind == kind && this.required == required
      ensures this.checked == checked && this.value == value
      ensures !invalid && feedback == None
    {
      this.name, this.id, this.kind, this.required := name, id, kind, required;
      this.checked, this.value := checked, value;
      invalid, feedback := false, None;
    }

    /** What `validateField` reads of the control. */
    function Snapshot(): FieldRules.Field
      reads this`checked, this`value
    {
      FieldRules.Field(name, id, kind, required, checked, value)
    }
  }

  /** `button[type="submit"]`: `disabled`, its text and `dataset.originalText`. */
  class SubmitButton {
    var disabled: bool
    var text: string
    var originalText: Option<string>

    constructor(text: string)
      ensures !disabled && this.text == text && originalText == None
    {
      disabled, this.text, originalText := false, text, None;
    }
  }

  /** The text the button shows while a submission is in flight (the spinner has no text). */
  const SendingLabel := "Wird gesendet..."

  /** `dataset.originalText || 'Senden'` */
  function RestoredLabel(saved: Option<string>): (text: string)
    ensures saved.Some? && saved.value != "" ==> text == saved.value
    ensures text != ""
  {
    if saved.Some? && saved.value != "" then saved.value else "Senden"
  }

  const InvalidInputText := "Bitte überprüfen Sie Ihre Eingaben."
  const SentText := "Nachricht erfolgreich gesendet!"
  const SendFailedText := "Fehler beim Senden."
  const NetworkErrorText := "Netzwerkfehler. Bitte versuchen Sie es später erneut."

  datatype Level = Success | Danger

  /** A call of `NotificationManager.show`. */
  datatype Notice = Notice(text: string, level: Level)

  /**
    What came back for the request: the parsed JSON body, with `success` read as a flag and
    `message` possibly absent, or a failure of the request or of the parsing (the `catch`).
   */
  datatype Response = Reply(success: bool, message: Option<string>) | TransportFailure

  /** `result.message || 'Fehler beim Senden.'` */
  function FailureText(message: Option<string>): (text: string)
    ensures message.Some? && message.value != "" ==> text == message.value
    ensures message.None? || message.value == "" ==> text == SendFailedText
    ensures text != ""
  {
    if message.Some? && message.value != "" then message.value else SendFailedText
  }

  /** A `FormData` entry: a field name and a text or file value. */
  type Entry = (string, Sanitize.FormValue)

  /**
    The one name a plain object does not store as its own key: assigning to `__proto__`
    goes to the inherited setter of `Object.prototype`, so no such key reaches the body.
   */
  const ProtoKey := "__proto__"

  /**
    The object `data` that `handleSubmit` fills from the `FormData` entries, in order: each
    entry stores its sanitized value under its name, so a later entry with the same name wins,
    and an entry named `__proto__` stores nothing.
   */
  function Payload(entries: seq<Entry>): (data: map<string, Sanitize.FormValue>)
    ensures data.Keys == set k | 0 <= k < |entries| && entries[k].0 != ProtoKey :: entries[k].0
    ensures ProtoKey !in data
  {
    if entries == [] then map[]
    else
      var n := |entries| - 1;
      var data := Payload(entries[..n]);
      assert forall k | 0 <= k < n :: entries[..n][k] == entries[k];
      if entries[n].0 == ProtoKey then data
      else data[entries[n].0 := Sanitize.SanitizeInput(entries[n].1)]
  }

  /** The value stored under a name is the sanitized value of the last entry with that name. */
  lemma {:induction false} PayloadLastWins(entries: seq<Entry>, i: nat)
    requires i < |entries| && entries[i].0 != ProtoKey
    requires forall k | i < k < |entries| :: entries[k].0 != entries[i].0
    ensures Payload(entries)[entries[i].0] == Sanitize.SanitizeInput(entries[i].1)
  {
    var n := |entries| - 1;
    if i < n {
      assert entries[..n][i] == entries[i];
      PayloadLastWins(entries[..n], i);
    }
  }

  /** Every text in the payload is sanitized: no brackets, no white space at either end. */
  lemma {:induction false} PayloadClean(entries: seq<Entry>, key: string)
    requires key in Payload(entries) && Payload(entries)[key].Text?
    ensures Sanitize.NoAngles(Payload(entries)[key].text)
    ensures var t := Payload(entries)[key].text; t == [] || (!JsText.IsSpace(t[0]) && !JsText.IsSpace(t[|t| - 1]))
  {
    var n := |entries| - 1;
    if entries[n].0 == key {
      if entries[n].1.Text? {
        Sanitize.SanitizeTextSafe(entries[n].1.text);
      }
    } else {
      PayloadClean(entries[..n], key);
    }
  }

  /** `formData.forEach((value, key) => { data[key] = this.sanitizeInput(value); })` */
  method BuildPayload(entries: seq<Entry>) returns (data: map<string, Sanitize.FormValue>)
    ensures data == Payload(entries)
  {
    data := map[];
    for i := 0 to |entries|
      invariant data == Payload(entries[..i])
    {
      assert entries[..i + 1][..i] == entries[..i];
      if entries[i].0 != ProtoKey {
        data := data[entries[i].0 := Sanitize.SanitizeInput(entries[i].1)];
      }
    }
    assert entries[..|entries|] == entries;
  }

  class FormValidator {
    /** `form.querySelectorAll('input, select, textarea')`, in document order. */
    const inputs: seq<Control>
    /** `form.querySelector('button[type="submit"]')`, which may be missing. */
    const button: SubmitButton?

    constructor(inputs: seq<Control>, button: SubmitButton?)
      ensures this.inputs == inputs && this.button == button
    {
      this.inputs, this.button := inputs, button;
    }

    /** The verdict `validateField` reaches on `c` as it stands. */
    function VerdictOf(c: Control, past: string -> bool): FieldRules.Verdict
      reads c`checked, c`value
    {
      FieldRules.ValidateField(c.Snapshot(), past)
    }

    /** `clearError`: the marker goes and an existing feedback element is hidden. */
    method ClearError(field: Control)
      modifies field`invalid, field`feedback
      ensures !field.invalid && field.feedback == Hidden(old(field.feedback))
    {
      field.invalid := false;
      field.feedback := Hidden(field.feedback);
    }

    /** `showError`: the marker is set and the feedback element (created if missing) shows `message`. */
    method ShowError(field: Control, message: string)
      modifies field`invalid, field`feedback
      ensures field.invalid && field.feedback == Some(Feedback(message, true))
    {
      field.invalid := true;
      field.feedback := Some(Feedback(message, true));
    }

    /**
      `validateField`: clears the marker, decides, and marks the control again on failure,
      so the marker afterwards mirrors the verdict returned.
     */
    method ValidateField(field: Control, past: string -> bool) returns (ok: bool)
      modifies field`invalid, field`feedback
      ensures ok == VerdictOf(field, past).valid
      ensures field.invalid == !ok
      ensures field.feedback == FeedbackAfter(VerdictOf(field, past), old(field.feedback))
    {
      ClearError(field);
      var v := FieldRules.ValidateField(field.Snapshot(), past);
      if !v.valid {
        ShowError(field, v.message);
      }
      ok := v.valid;
    }

    /** The `input` listener: a control already marked invalid is validated again as it is typed in. */
    method OnInput(field: Control, past: string -> bool)
      modifies field`invalid, field`feedback
      ensures old(field.invalid) ==> field.invalid == !VerdictOf(field, past).valid
      ensures old(field.invalid) ==> field.feedback == FeedbackAfter(VerdictOf(field, past), old(field.feedback))
      ensures !old(field.invalid) ==> !field.invalid && field.feedback == old(field.feedback)
    {
      if field.invalid {
        var _ := ValidateField(field, past);
      }
    }

    /**
      `validateForm`: every control is validated, none skipped after a failure, and the form
      is valid exactly when all of them are.
     */
    method ValidateForm(past: string -> bool) returns (ok: bool)
      modifies inputs`invalid, inputs`feedback
      ensures ok <==> forall j | 0 <= j < |inputs| :: VerdictOf(inputs[j], past).valid
      ensures forall j | 0 <= j < |inputs| :: inputs[j].invalid == !VerdictOf(inputs[j], past).valid
      ensures forall j | 0 <= j < |inputs| ::
        inputs[j].feedback == FeedbackAfter(VerdictOf(inputs[j], past), old(inputs[j].feedback))
    {
      hide FieldRules.ValidateField;
      ok := true;
      for i := 0 to |inputs|
        invariant ok <==> forall j | 0 <= j < i :: VerdictOf(inputs[j], past).valid
        invariant forall j | 0 <= j < i :: inputs[j].invalid == !VerdictOf(inputs[j], past).valid
        invariant forall j | 0 <= j < i ::
          inputs[j].feedback == FeedbackAfter(VerdictOf(inputs[j], past), old(inputs[j].feedback))
        invariant forall c | c in inputs ::
          c.feedback == old(c.feedback) || c.feedback == FeedbackAfter(VerdictOf(c, past), old(c.feedback))
      {
        var c := inputs[i];
        FeedbackAfterTwice(VerdictOf(c, past), old(c.feedback));
        var fieldOk := ValidateField(c, past);
        if !fieldOk {
          ok := false;
        }
      }
    }

    /** `disableSubmit`: the button is disabled, its label saved and replaced by the sending text. */
    method DisableSubmit()
      modifies button
      ensures button != null ==> button.disabled && button.originalText == Some(old(button.text))
      ensures button != null ==> button.text == SendingLabel
    {
      if button != null {
        button.disabled := true;
        button.originalText := Some(button.text);
        button.text := SendingLabel;
      }
    }

    /** `enableSubmit`: the button is enabled again with the saved label, or `Senden` without one. */
    method EnableSubmit()
      modifies button
      ensures button != null ==> !button.disabled && button.originalText == old(button.originalText)
      ensures button != null ==> button.text == RestoredLabel(old(button.originalText))
    {
      if button != null {
        button.disabled := false;
        button.text := RestoredLabel(button.originalText);
      }
    }

    /**
      `handleSubmit`, with the request's outcome given as `response`. An invalid form gives
      the danger notice and sends nothing; a valid one disables the button and sends the
      sanitized payload; success keeps the button disabled and schedules the redirect, any
      failure shows its text and enables the button again with its old label.
     */
    method HandleSubmit(past: string -> bool, entries: seq<Entry>, response: Response)
      returns (notice: Notice, request: Option<map<string, Sanitize.FormValue>>, redirect: bool)
      modifies inputs`invalid, inputs`feedback, button
      ensures forall j | 0 <= j < |inputs| :: inputs[j].invalid == !VerdictOf(inputs[j], past).valid
      ensures forall j | 0 <= j < |inputs| ::
        inputs[j].feedback == FeedbackAfter(VerdictOf(inputs[j], past), old(inputs[j].feedback))
      ensures request.Some? <==> forall j | 0 <= j < |inputs| :: VerdictOf(inputs[j], past).valid
      ensures request.None? ==> notice == Notice(InvalidInputText, Danger) && !redirect
      ensures request.None? && button != null ==> unchanged(button)
      ensures request.Some? ==> request.value == Payload(entries)
      ensures request.Some? ==> (redirect <==> response.Reply? && response.success)
      ensures request.Some? && redirect ==> notice == Notice(SentText, Success)
      ensures request.Some? && response.Reply? && !response.success ==>
        notice == Notice(FailureText(response.message), Danger)
      ensures request.Some? && response.TransportFailure? ==> notice == Notice(NetworkErrorText, Danger)
      ensures request.Some? && button != null ==>
        button.disabled == redirect && button.originalText == Some(old(button.text)) &&
        button.text == (if redirect then SendingLabel else RestoredLabel(Some(old(button.text))))
    {
      var ok := ValidateForm(past);
      if !ok {
        notice, request, redirect := Notice(InvalidInputText, Danger), None, false;
        return;
      }
      DisableSubmit();
      var data := BuildPayload(entries);
      request := Some(data);
      match response
      case Reply(success, message) =>
        if success {
          notice, redirect := Notice(SentText, Success), true;
        } else {
          notice, redirect := Notice(FailureText(message), Danger), false;
          EnableSubmit();
        }
      case TransportFailure =>
        notice, redirect := Notice(NetworkErrorText, Danger), false;
        EnableSubmit();
    }
  }
}
