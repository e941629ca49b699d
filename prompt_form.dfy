/**
 * `PromptForm`: the older form with its own validator (falsy check only,
 * raw field names, silent on an unknown modality) and alert-based gating.
 */
module LegacyForm {
  import opened Wrappers
  import opened Seqs
  import opened JsValues
  import opened Config
  import opened Validation
  import opened Api

  const NoModelMessage := "Please select a model"
  const FailureResult := "Failed to generate prompt"
  const Goal := "user defined"

  /** The component's own model lists (fewer image models than the shared table). */
  const LegacyModels: map<string, seq<string>> := map[
    "image" := ["dalle-3", "midjourney-v6", "sdxl"],
    "video" := ["runway-gen3", "pika", "sora"],
    "voice" := ["openai-voice", "elevenlabs"]
  ]

  /** `!formData[field]`: absent or falsy; a blank but non-empty string is present. */
  predicate LegacyMissing(form: Form, field: string) {
    field !in form || !Truthy(form[field])
  }

  function LegacyMessage(field: string, suffix: string): string {
    field + " is required" + suffix
  }

  /** The messages one `forEach` pushes, in order. */
  function LegacyRequiredErrors(form: Form, fields: seq<string>, suffix: string): seq<string>
    decreases |fields|
  {
    if fields == [] then []
    else
      var last := fields[|fields| - 1];
      LegacyRequiredErrors(form, fields[..|fields| - 1], suffix)
        + (if LegacyMissing(form, last) then [LegacyMessage(last, suffix)] else [])
  }

  /** `validate(formData, modality, model)` against the rule table `table`. */
  function LegacyValidation(table: RuleTable, form: Form, modality: string, model: string): seq<string> {
    if modality !in table then []
    else
      var rules := table[modality];
      LegacyRequiredErrors(form, rules.common, "")
        + (if model in rules.models then LegacyRequiredErrors(form, rules.models[model], ModelSuffix(model)) else [])
  }

  /** The fields the legacy validator reports, in message order. */
  function LegacyReported(table: RuleTable, form: Form, modality: string, model: string): seq<string> {
    if modality !in table then []
    else
      var rules := table[modality];
      Filter(rules.common, f => LegacyMissing(form, f))
        + (if model in rules.models then Filter(rules.models[model], f => LegacyMissing(form, f)) else [])
  }

  function LegacyMessages(fields: seq<string>, suffix: string): (r: seq<string>)
    ensures |r| == |fields|
  {
    seq(|fields|, i requires 0 <= i < |fields| => LegacyMessage(fields[i], suffix))
  }

  method CheckRequired(form: Form, fields: seq<string>, suffix: string) returns (errors: seq<string>)
    ensures errors == LegacyRequiredErrors(form, fields, suffix)
  {
    errors := [];
    for i := 0 to |fields|
      invariant errors == LegacyRequiredErrors(form, fields[..i], suffix)
    {
      var field := fields[i];
      assert fields[..i + 1][..i] == fields[..i];
      if !(field in form && Truthy(form[field])) {
        errors := errors + [LegacyMessage(field, suffix)];
      }
    }
    assert fields[..|fields|] == fields;
  }

  /** The component's `validate`, over the shared rule table. */
  method Validate(form: Form, modality: string, model: string) returns (errors: seq<string>)
    ensures errors == LegacyValidation(RequiredFields, form, modality, model)
  {
    errors := [];
    if modality !in RequiredFields {
      return;
    }
    var rules := RequiredFields[modality];
    errors := CheckRequired(form, rules.common, "");
    if model in rules.models {
      var modelErrors := CheckRequired(form, rules.models[model], ModelSuffix(model));
      errors := errors + modelErrors;
    }
  }

  // ---------------------------------------------------------------- properties

  lemma {:induction false} LegacyErrorsAreMessages(form: Form, fields: seq<string>, suffix: string)
    ensures LegacyRequiredErrors(form, fields, suffix)
      == LegacyMessages(Filter(fields, f => LegacyMissing(form, f)), suffix)
    decreases |fields|
  {
    if fields != [] {
      var init, last := fields[..|fields| - 1], fields[|fields| - 1];
      LegacyErrorsAreMessages(form, init, suffix);
      assert fields == init + [last];
      FilterAppend(init, [last], f => LegacyMissing(form, f));
      assert Filter([last], f => LegacyMissing(form, f)) == if LegacyMissing(form, last) then [last] else [];
    }
  }

  /** One raw-named message per reported field: common ones plain, model ones with the model. */
  lemma LegacyOrder(table: RuleTable, form: Form, modality: string, model: string)
    requires modality in table
    ensures var errors := LegacyValidation(table, form, modality, model);
      var common := Filter(table[modality].common, f => LegacyMissing(form, f));
      var reported := LegacyReported(table, form, modality, model);
      && |errors| == |reported|
      && (forall i :: 0 <= i < |common| ==> errors[i] == LegacyMessage(reported[i], ""))
      && (forall i :: |common| <= i < |reported| ==> errors[i] == LegacyMessage(reported[i], ModelSuffix(model)))
  {
    var rules := table[modality];
    var common := Filter(rules.common, f => LegacyMissing(form, f));
    var extra := if model in rules.models then Filter(rules.models[model], f => LegacyMissing(form, f)) else [];
    LegacyAsMessages(table, form, modality, model);
    LegacyMessagesConcat(common, extra, "", ModelSuffix(model));
  }

  /** The legacy output and its report, both written through the missing fields. */
  lemma LegacyAsMessages(table: RuleTable, form: Form, modality: string, model: string)
    requires modality in table
    ensures var rules := table[modality];
      var common := Filter(rules.common, f => LegacyMissing(form, f));
      var extra := if model in rules.models then Filter(rules.models[model], f => LegacyMissing(form, f)) else [];
      && LegacyValidation(table, form, modality, model) == LegacyMessages(common, "") + LegacyMessages(extra, ModelSuffix(model))
      && LegacyReported(table, form, modality, model) == common + extra
  {
    var rules := table[modality];
    LegacyErrorsAreMessages(form, rules.common, "");
    if model in rules.models {
      LegacyErrorsAreMessages(form, rules.models[model], ModelSuffix(model));
    } else {
      var common := Filter(rules.common, f => LegacyMissing(form, f));
      assert LegacyMessages([], ModelSuffix(model)) == [];
      assert common + [] == common;
      assert LegacyRequiredErrors(form, rules.common, "") + [] == LegacyRequiredErrors(form, rules.common, "");
    }
  }

  lemma LegacyMessagesConcat(a: seq<string>, b: seq<string>, sa: string, sb: string)
    ensures var errors := LegacyMessages(a, sa) + LegacyMessages(b, sb);
      && |errors| == |a + b|
      && (forall i :: 0 <= i < |a| ==> errors[i] == LegacyMessage((a + b)[i], sa))
      && (forall i :: |a| <= i < |a + b| ==> errors[i] == LegacyMessage((a + b)[i], sb))
  {
    var errors := LegacyMessages(a, sa) + LegacyMessages(b, sb);
    forall i | |a| <= i < |a + b| ensures errors[i] == LegacyMessage((a + b)[i], sb) {
      assert errors[i] == LegacyMessages(b, sb)[i - |a|];
    }
  }

  /** An unknown modality passes silently. */
  lemma LegacyUnknownModality(table: RuleTable, form: Form, modality: string, model: string)
    requires modality !in table
    ensures LegacyValidation(table, form, modality, model) == []
  {
  }

  /** A missing value for the legacy check is missing for the shared validator too. */
  lemma LegacyMissingImpliesMissing(form: Form, field: string)
    ensures LegacyMissing(form, field) ==> Missing(form, field)
  {
  }

  /** The two checks differ exactly on non-empty strings made of whitespace. */
  lemma MissingDifference(form: Form, field: string)
    ensures (Missing(form, field) && !LegacyMissing(form, field)) <==>
      field in form && form[field].Str? && form[field].s != "" &&
      forall i :: 0 <= i < |form[field].s| ==> IsWhiteSpace(form[field].s[i])
  {
    MissingIff(form, field);
  }

  /** The legacy report is the shared validator's report with the blank strings dropped. */
  lemma LegacyReportedWithin(table: RuleTable, form: Form, modality: string, model: string)
    ensures LegacyReported(table, form, modality, model)
      == Filter(ReportedFields(table, form, modality, model), f => LegacyMissing(form, f))
  {
    if modality in table {
      var rules := table[modality];
      var missing := f => Missing(form, f);
      var legacy := f => LegacyMissing(form, f);
      var both := f => Missing(form, f) && LegacyMissing(form, f);
      assert forall f :: both(f) == legacy(f);
      FilterFilter(rules.common, missing, legacy, both);
      FilterExtensional(rules.common, both, legacy);
      if model in rules.models {
        FilterFilter(rules.models[model], missing, legacy, both);
        FilterExtensional(rules.models[model], both, legacy);
        FilterAppend(Filter(rules.common, missing), Filter(rules.models[model], missing), legacy);
      } else {
        assert ReportedFields(table, form, modality, model) == Filter(rules.common, missing) + [];
        assert Filter(rules.common, missing) + [] == Filter(rules.common, missing);
        assert LegacyReported(table, form, modality, model) == Filter(rules.common, legacy) + [];
      }
    }
  }

  /** The legacy check never reports a duration. */
  lemma LegacyNoDurationCheck(table: RuleTable, form: Form, modality: string, model: string)
    ensures |LegacyValidation(table, form, modality, model)| == |LegacyReported(table, form, modality, model)|
  {
    if modality in table {
      LegacyOrder(table, form, modality, model);
    }
  }

  /** Every model the component offers has an entry in the rule table. */
  lemma LegacyModelsHaveRules()
    ensures LegacyModels.Keys == RequiredFields.Keys
    ensures forall m, i :: m in LegacyModels && 0 <= i < |LegacyModels[m]| ==>
      LegacyModels[m][i] in RequiredFields[m].models
  {
  }

  // ---------------------------------------------------------------- submit

  /** Where pressing the button leads: an `alert`, or one request. */
  datatype LegacyGate = Alert(message: string) | Send(request: GenerationRequest)

  /** The payload: the form with `modality`, the fixed goal and `subject || ""`. */
  function LegacyPayload(form: Form, modality: string): Form {
    form + map["modality" := Str(modality), "goal" := Str(Goal), "subject" := OrDefault(form, "subject", Str(""))]
  }

  function LegacySubmitGate(form: Form, modality: string, model: string): LegacyGate {
    if model == "" then Alert(NoModelMessage)
    else
      var errors := LegacyValidation(RequiredFields, form, modality, model);
      if |errors| > 0 then Alert(Join(errors, "\n"))
      else Send(GenerationRequest(modality, model, LegacyPayload(form, modality)))
  }

  /** `response.prompt || response.error`, or the fixed text when the call threw. */
  function LegacyResult(outcome: Outcome): Option<string> {
    match outcome
    case Replied(r) => if r.prompt.Some? && r.prompt.value != "" then r.prompt else r.error
    case Threw(_) => Some(FailureResult)
  }

  /** A request goes out exactly when a model is chosen and the legacy check is empty. */
  lemma LegacySendIffValid(form: Form, modality: string, model: string)
    ensures LegacySubmitGate(form, modality, model).Send?
      <==> model != "" && LegacyValidation(RequiredFields, form, modality, model) == []
  {
  }

  /** The goal sent is always `"user defined"`, whatever the form says; a falsy subject becomes `""`; other form keys pass through. */
  lemma LegacyPayloadFields(form: Form, modality: string)
    ensures var p := LegacyPayload(form, modality);
      && p.Keys == form.Keys + {"modality", "goal", "subject"}
      && p["goal"] == Str(Goal) && p["modality"] == Str(modality)
      && (forall k :: k in form && k != "modality" && k != "goal" && k != "subject" ==> p[k] == form[k])
      && (p["subject"] == form["subject"] <== "subject" in form && Truthy(form["subject"]))
      && (p["subject"] == Str("") <== !("subject" in form && Truthy(form["subject"])))
  {
  }

  /** A non-empty prompt wins; otherwise the error field is shown; a thrown call shows the fixed text. */
  lemma LegacyResultCases(outcome: Outcome)
    ensures outcome.Replied? && outcome.response.prompt.Some? && outcome.response.prompt.value != ""
      ==> LegacyResult(outcome) == outcome.response.prompt
    ensures outcome.Replied? && !(outcome.response.prompt.Some? && outcome.response.prompt.value != "")
      ==> LegacyResult(outcome) == outcome.response.error
    ensures outcome.Threw? ==> LegacyResult(outcome) == Some(FailureResult)
  {
  }

  class PromptForm {
    var modality: string
    var form: Form
    var model: string
    var loading: bool
    var result: Option<string>

    constructor(modality: string)
      ensures this.modality == modality && form == map[] && model == "" && !loading && result == Some("")
    {
      this.modality := modality;
      form := map[];
      model := "";
      loading := false;
      result := Some("");
    }

    /** The reset effect on a new `modality` prop. */
    method ChangeModality(newModality: string)
      modifies this
      ensures modality == newModality && form == map[] && model == "" && result == Some("")
      ensures loading == old(loading)
    {
      modality := newModality;
      form := map[];
      model := "";
      result := Some("");
    }

    method SelectModel(newModel: string)
      modifies this
      ensures model == newModel
      ensures modality == old(modality) && form == old(form) && loading == old(loading) && result == old(result)
    {
      model := newModel;
    }

    /** `handleChange`: only `form[e.target.name]` changes. */
    method HandleChange(name: string, value: string)
      modifies this
      ensures form == old(form)[name := Str(value)]
      ensures modality == old(modality) && model == old(model) && loading == old(loading) && result == old(result)
    {
      form := form[name := Str(value)];
    }

    /** `handleSubmit` up to the `await`; the button is disabled while loading. */
    method BeginSubmit() returns (gate: LegacyGate)
      requires !loading
      modifies this
      ensures gate == LegacySubmitGate(old(form), old(modality), old(model))
      ensures loading == gate.Send?
      ensures modality == old(modality) && form == old(form) && model == old(model) && result == old(result)
    {
      if model == "" {
        return Alert(NoModelMessage);
      }
      var errors := Validate(form, modality, model);
      if |errors| > 0 {
        return Alert(Join(errors, "\n"));
      }
      loading := true;
      gate := Send(GenerationRequest(modality, model, LegacyPayload(form, modality)));
    }

    /** `handleSubmit` after the `await`: the shown result, and `finally` clears `loading`. */
    method FinishSubmit(outcome: Outcome)
      modifies this
      ensures !loading && result == LegacyResult(outcome)
      ensures modality == old(modality) && form == old(form) && model == old(model)
    {
      match outcome {
        case Replied(response) =>
          result := if response.prompt.Some? && response.prompt.value != "" then response.prompt else response.error;
        case Threw(_) =>
          result := Some(FailureResult);
      }
      loading := false;
    }
  }
}
