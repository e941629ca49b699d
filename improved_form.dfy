/**
 * `ImprovedPromptForm`: the form state, its handlers, and the submit
 * path from the model check through validation to the generation call.
 */
module ImprovedForm {
  import opened Wrappers
  import opened Seqs
  import opened JsValues
  import opened Config
  import opened Validation
  import opened Api
  import ConfigFacts

  const NoModelMessage := "Please select a model"
  const FallbackFailure := "Failed to generate prompt. Please try again."
  const SuccessMessage := "Prompt generated successfully!"
  const DefaultGoal := "user defined"

  /** A message passed to the `onError` or `onSuccess` callback. */
  datatype Notice = ErrorNotice(text: string) | SuccessNotice(text: string)

  /** Where pressing submit leads: a local rejection, or one request. */
  datatype Gate = Rejected(message: string) | Send(request: GenerationRequest)

  /** The payload: the form overlaid with `modality`, `goal` and `subject`. */
  function Payload(form: Form, modality: string): Form {
    form + map[
      "modality" := Str(modality),
      "goal" := OrDefault(form, "goal", Str(DefaultGoal)),
      "subject" := OrDefault(form, "subject", Str(""))]
  }

  /** The decision `handleSubmit` takes before any request. */
  function SubmitGate(form: Form, modality: string, model: string): Gate {
    if model == "" then Rejected(NoModelMessage)
    else
      var errors := ValidationErrors(RequiredFields, form, modality, model);
      if |errors| > 0 then Rejected(Join(errors, "\n"))
      else Send(GenerationRequest(modality, model, Payload(form, modality)))
  }

  /** The text shown for a failed call. */
  function FailureText(failure: Failure): string {
    match failure
    case ApiError(message, _) => message
    case OtherError => FallbackFailure
  }

  /** `handleTemplateSelect`'s effect on the form: a known key replaces it outright. */
  function AfterTemplate(form: Form, modality: string, key: string): Form
    requires modality in Templates
  {
    if key != "" && key in Templates[modality] then Templates[modality][key].values else form
  }

  // ---------------------------------------------------------------- properties

  /** A request goes out exactly when a model is chosen and the validator has nothing to say. */
  lemma SendIffValid(form: Form, modality: string, model: string)
    ensures SubmitGate(form, modality, model).Send?
      <==> model != "" && ValidationErrors(RequiredFields, form, modality, model) == []
  {
  }

  /** Without a model nothing is validated and the only message is the model prompt. */
  lemma NoModelRejected(form: Form, modality: string)
    ensures SubmitGate(form, modality, "") == Rejected(NoModelMessage)
  {
  }

  /** Validation messages are shown as one text, one per line; a single one unchanged. */
  lemma ErrorsJoined(form: Form, modality: string, model: string)
    requires model != ""
    ensures var errors := ValidationErrors(RequiredFields, form, modality, model);
      && (errors != [] ==> SubmitGate(form, modality, model) == Rejected(Join(errors, "\n")))
      && (|errors| == 1 ==> SubmitGate(form, modality, model) == Rejected(errors[0]))
  {
  }

  /** The request carries the form's modality and model and the payload. */
  lemma RequestContents(form: Form, modality: string, model: string)
    requires SubmitGate(form, modality, model).Send?
    ensures var req := SubmitGate(form, modality, model).request;
      req.modality == modality && req.model == model && req.payload == Payload(form, modality)
  {
  }

  /**
   * The payload keeps every form key and adds `modality`, `goal` and
   * `subject`; other keys keep their values, `modality` is the form's
   * modality, a falsy `goal` becomes `"user defined"` and a falsy `subject`
   * the empty string.
   */
  lemma PayloadFields(form: Form, modality: string)
    ensures var p := Payload(form, modality);
      && p.Keys == form.Keys + {"modality", "goal", "subject"}
      && (forall k :: k in form && k != "modality" && k != "goal" && k != "subject" ==> p[k] == form[k])
      && p["modality"] == Str(modality)
      && Truthy(p["goal"])
      && (p["goal"] == form["goal"] <== "goal" in form && Truthy(form["goal"]))
      && (p["goal"] == Str(DefaultGoal) <== !("goal" in form && Truthy(form["goal"])))
      && (p["subject"] == form["subject"] <== "subject" in form && Truthy(form["subject"]))
      && (p["subject"] == Str("") <== !("subject" in form && Truthy(form["subject"])))
  {
  }

  /** Right after choosing a template, any model of the modality gets a request. */
  lemma TemplateThenSubmitSends(form: Form, modality: string, key: string, model: string)
    requires modality in Templates && key in Templates[modality]
    requires modality in RequiredFields && model in RequiredFields[modality].models
    ensures SubmitGate(AfterTemplate(form, modality, key), modality, model).Send?
  {
    ConfigFacts.TemplateKeysNonEmpty(modality, key);
    ConfigFacts.ModelIdsNonEmpty(modality, model);
    ConfigFacts.TemplatesValidate(modality, key, model);
  }

  /** An `APIError` message passes through; anything else shows the fixed text. */
  lemma FailureTextCases(failure: Failure)
    ensures failure.ApiError? ==> FailureText(failure) == failure.message
    ensures failure.OtherError? ==> FailureText(failure) == FallbackFailure
  {
  }

  // ---------------------------------------------------------------- the component

  /**
   * The component's state, with the parent's `result` it writes through
   * `setResult` (`None` is an `undefined` prompt).
   */
  class ImprovedPromptForm {
    var modality: string
    var form: Form
    var model: string
    var loading: bool
    var selectedTemplate: string
    var result: Option<string>

    /** Mounting runs the reset effect once. */
    constructor(modality: string)
      ensures this.modality == modality
      ensures form == map[] && model == "" && selectedTemplate == "" && result == Some("") && !loading
    {
      this.modality := modality;
      form := map[];
      model := "";
      loading := false;
      selectedTemplate := "";
      result := Some("");
    }

    /** A new `modality` prop: the effect clears the form, model, template and result. */
    method ChangeModality(newModality: string)
      modifies this
      ensures modality == newModality
      ensures form == map[] && model == "" && selectedTemplate == "" && result == Some("")
      ensures loading == old(loading)
    {
      modality := newModality;
      form := map[];
      model := "";
      selectedTemplate := "";
      result := Some("");
    }

    /** The model select's `onChange`. */
    method SelectModel(newModel: string)
      modifies this
      ensures model == newModel
      ensures modality == old(modality) && form == old(form) && loading == old(loading)
      ensures selectedTemplate == old(selectedTemplate) && result == old(result)
    {
      model := newModel;
    }

    /** `handleChange`: one key set to the input's text, every other key kept. */
    method HandleChange(name: string, value: string)
      modifies this
      ensures form == old(form)[name := Str(value)]
      ensures modality == old(modality) && model == old(model) && loading == old(loading)
      ensures selectedTemplate == old(selectedTemplate) && result == old(result)
    {
      form := form[name := Str(value)];
    }

    /** `handleTemplateSelect`: the key is always recorded; a known one replaces the form. */
    method HandleTemplateSelect(key: string)
      requires modality in Templates
      modifies this
      ensures selectedTemplate == key
      ensures form == AfterTemplate(old(form), old(modality), key)
      ensures modality == old(modality) && model == old(model) && loading == old(loading) && result == old(result)
    {
      selectedTemplate := key;
      if key != "" && key in Templates[modality] {
        form := Templates[modality][key].values;
      }
    }

    /**
     * `handleSubmit` up to the `await`: a rejection is reported through
     * `onError` and changes nothing; an accepted submit sets `loading`.
     * The button is disabled while loading, so a submit needs `!loading`.
     */
    method BeginSubmit() returns (gate: Gate, notice: Option<Notice>)
      requires !loading
      modifies this
      ensures gate == SubmitGate(old(form), old(modality), old(model))
      ensures loading == gate.Send?
      ensures notice == if gate.Rejected? then Some(ErrorNotice(gate.message)) else None
      ensures modality == old(modality) && form == old(form) && model == old(model)
      ensures selectedTemplate == old(selectedTemplate) && result == old(result)
    {
      if model == "" {
        gate := Rejected(NoModelMessage);
        notice := Some(ErrorNotice(gate.message));
        return;
      }
      var errors := ValidatePromptData(form, modality, model);
      if |errors| > 0 {
        gate := Rejected(Join(errors, "\n"));
        notice := Some(ErrorNotice(gate.message));
        return;
      }
      loading := true;
      gate := Send(GenerationRequest(modality, model, Payload(form, modality)));
      notice := None;
    }

    /** `handleSubmit` after the `await`: the result or the failure text, and `finally` clears `loading`. */
    method FinishSubmit(outcome: Outcome) returns (notice: Notice)
      modifies this
      ensures !loading
      ensures outcome.Replied? ==> result == outcome.response.prompt && notice == SuccessNotice(SuccessMessage)
      ensures outcome.Threw? ==> result == old(result) && notice == ErrorNotice(FailureText(outcome.failure))
      ensures modality == old(modality) && form == old(form) && model == old(model)
      ensures selectedTemplate == old(selectedTemplate)
    {
      match outcome {
        case Replied(response) =>
          result := response.prompt;
          notice := SuccessNotice(SuccessMessage);
        case Threw(failure) =>
          notice := ErrorNotice(FailureText(failure));
      }
      loading := false;
    }
  }
}
