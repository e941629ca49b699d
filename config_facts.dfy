/** Facts about the constant tables and how the validator reads them. */
module ConfigFacts {
  import opened Wrappers
  import opened JsValues
  import opened Seqs
  import opened Config
  import opened Validation
  import opened ConfigShape

  /** The model ids a modality offers in its selector. */
  function ModelValues(models: seq<ModelInfo>): (r: set<string>)
    ensures forall i :: 0 <= i < |models| ==> models[i].value in r
    ensures forall v :: v in r ==> exists i :: 0 <= i < |models| && models[i].value == v
  {
    if models == [] then {} else {models[0].value} + ModelValues(models[1..])
  }

  /** The first definition named `name` in a modality's field list. */
  function Definition(defs: seq<FieldDefinition>, name: string): (r: Option<FieldDefinition>)
    ensures r.Some? ==> r.value in defs && r.value.name == name
    ensures r.None? ==> forall i :: 0 <= i < |defs| ==> defs[i].name != name
  {
    if defs == [] then None
    else if defs[0].name == name then Some(defs[0])
    else Definition(defs[1..], name)
  }

  /** The rule table has an entry for every model a modality offers, and for no other. */
  lemma RuleKeysAreModelValues()
    ensures RequiredFields.Keys == Models.Keys
    ensures forall m :: m in Models ==> RequiredFields[m].models.Keys == ModelValues(Models[m])
  {
    ModelsShape();
    RulesShape();
    forall m | m in Models ensures RequiredFields[m].models.Keys == ModelValues(Models[m]) {
      ModalityKeysAreModelValues(m);
    }
  }

  lemma ModalityKeysAreModelValues(m: string)
    requires m in Models
    ensures m in RequiredFields && RequiredFields[m].models.Keys == ModelValues(Models[m])
  {
    ModelsShape();
    RulesShape();
    if m == "image" {
      ImageModelValues();
    } else if m == "video" {
      VideoModelValues();
    } else {
      VoiceModelValues();
    }
  }

  lemma ImageModelValues()
    ensures ModelValues(ImageModels) == ImageRules.models.Keys
  {
    var ms := ImageModels;
    assert ModelValues(ms[4..]) == {"firefly"};
    assert ModelValues(ms[3..]) == {"imagen", "firefly"};
    assert ModelValues(ms[2..]) == {"sdxl", "imagen", "firefly"};
    assert ModelValues(ms[1..]) == {"midjourney-v6", "sdxl", "imagen", "firefly"};
    ImageRulesShape();
  }

  lemma VideoModelValues()
    ensures ModelValues(VideoModels) == VideoRules.models.Keys
  {
    var ms := VideoModels;
    assert ModelValues(ms[2..]) == {"sora"};
    assert ModelValues(ms[1..]) == {"pika", "sora"};
    VideoRulesShape();
  }

  lemma VoiceModelValues()
    ensures ModelValues(VoiceModels) == VoiceRules.models.Keys
  {
    var ms := VoiceModels;
    assert ModelValues(ms[1..]) == {"elevenlabs"};
    VoiceRulesShape();
  }

  /** The only model-specific requirement is `camera_motion` for `runway-gen3`. */
  lemma OnlyCameraMotionIsModelSpecific()
    ensures forall m, model :: m in RequiredFields && model in RequiredFields[m].models ==>
      RequiredFields[m].models[model] == if m == "video" && model == "runway-gen3" then ["camera_motion"] else []
  {
    RulesShape();
    ImageRulesShape();
    VideoRulesShape();
    VoiceRulesShape();
  }

  /**
   * Rules whose lists have no repetitions and whose model-specific fields are
   * never common ones.
   */
  predicate WellFormedRules(rules: Rules) {
    && Distinct(rules.common)
    && forall model :: model in rules.models ==>
         Distinct(rules.models[model])
         && forall i :: 0 <= i < |rules.models[model]| ==> rules.models[model][i] !in rules.common
  }

  /** Every modality's rules in the table are well formed. */
  lemma RequiredFieldsWellFormed(m: string)
    requires m in RequiredFields
    ensures WellFormedRules(RequiredFields[m])
  {
    RulesShape();
    if m == "image" {
      ImageRulesShape();
    } else if m == "video" {
      VideoRulesShape();
      assert "camera_motion" !in VideoRules.common;
    } else {
      VoiceRulesShape();
    }
  }

  /** No field is both common and model-specific, so none is reported twice. */
  lemma CommonAndModelFieldsDisjoint()
    ensures forall m, model, f ::
      m in RequiredFields && model in RequiredFields[m].models && f in RequiredFields[m].models[model]
      ==> f !in RequiredFields[m].common
  {
    forall m, model, f | m in RequiredFields && model in RequiredFields[m].models && f in RequiredFields[m].models[model]
      ensures f !in RequiredFields[m].common
    {
      RequiredFieldsWellFormed(m);
    }
  }

  /** Over well-formed rules a report never names a field twice. */
  lemma ReportedFieldsDistinct(table: RuleTable, form: Form, modality: string, model: string)
    requires modality in table ==> WellFormedRules(table[modality])
    ensures Distinct(ReportedFields(table, form, modality, model))
  {
    if modality in table {
      var rules := table[modality];
      var p := f => Missing(form, f);
      var common := Filter(rules.common, p);
      FilterDistinct(rules.common, p);
      if model in rules.models {
        var extra := Filter(rules.models[model], p);
        FilterDistinct(rules.models[model], p);
        var r := common + extra;
        forall i, j | 0 <= i < j < |r| ensures r[i] != r[j] {
          if i < |common| <= j {
            FilterMembers(rules.common, p, r[i]);
            FilterMembers(rules.models[model], p, r[j]);
            assert r[i] in common && r[j] in extra;
          }
        }
      } else {
        assert ReportedFields(table, form, modality, model) == common + [];
      }
    }
  }

  /** With the application's table a report never names a field twice. */
  lemma RequiredFieldsReportDistinct(form: Form, modality: string, model: string)
    ensures Distinct(ReportedFields(RequiredFields, form, modality, model))
  {
    if modality in RequiredFields {
      RequiredFieldsWellFormed(modality);
    }
    ReportedFieldsDistinct(RequiredFields, form, modality, model);
  }

  /** Every common required field of `m` is defined, with `required: true`. */
  lemma CommonFieldDefinedRequired(m: string, f: string)
    requires m in RequiredFields && f in RequiredFields[m].common
    ensures m in FieldDefinitions
    ensures Definition(FieldDefinitions[m], f).Some? && Definition(FieldDefinitions[m], f).value.required
  {
    RulesShape();
    FieldsShape();
    if m == "image" {
      ImageRulesShape();
      ImageDefinitionsRequired(f);
    } else if m == "video" {
      VideoRulesShape();
      VideoDefinitionsRequired(f);
    } else {
      VoiceRulesShape();
      VoiceDefinitionsRequired(f);
    }
  }

  lemma ImageDefinitionsRequired(f: string)
    requires f in ["subject", "style"]
    ensures Definition(ImageFields, f).Some? && Definition(ImageFields, f).value.required
  {
  }

  lemma VideoDefinitionsRequired(f: string)
    requires f in ["scene", "action", "duration_seconds"]
    ensures Definition(VideoFields, f).Some? && Definition(VideoFields, f).value.required
  {
  }

  lemma VoiceDefinitionsRequired(f: string)
    requires f in ["accent", "emotion", "pace"]
    ensures Definition(VoiceFields, f).Some? && Definition(VoiceFields, f).value.required
  {
    var names := seq(|VoiceFields|, i requires 0 <= i < |VoiceFields| => VoiceFields[i].name);
    assert names[..4] == ["subject", "accent", "emotion", "pace"];
    if f == "accent" {
      DefinitionAt(VoiceFields, 1, f);
    } else if f == "emotion" {
      DefinitionAt(VoiceFields, 2, f);
    } else {
      DefinitionAt(VoiceFields, 3, f);
    }
  }

  /** The first definition named `name` sits at index `i`. */
  lemma {:induction false} DefinitionAt(defs: seq<FieldDefinition>, i: nat, name: string)
    requires i < |defs| && defs[i].name == name
    requires forall j :: 0 <= j < i ==> defs[j].name != name
    ensures Definition(defs, name) == Some(defs[i])
    decreases i
  {
    if i > 0 {
      DefinitionAt(defs[1..], i - 1, name);
    }
  }

  /** Voice `subject` is the one field marked required that the rule table does not list. */
  lemma RequiredUnlisted(m: string, i: int)
    requires m in FieldDefinitions && 0 <= i < |FieldDefinitions[m]|
    ensures m in RequiredFields
    ensures (FieldDefinitions[m][i].required && FieldDefinitions[m][i].name !in RequiredFields[m].common)
       <==> (m == "voice" && FieldDefinitions[m][i].name == "subject")
  {
    RulesShape();
    FieldsShape();
    if m == "image" {
      ImageRulesShape();
      ImageRequiredListed(i);
    } else if m == "video" {
      VideoRulesShape();
      VideoRequiredListed(i);
    } else {
      VoiceRulesShape();
      VoiceRequiredListed(i);
    }
  }

  lemma ImageRequiredListed(i: int)
    requires 0 <= i < |ImageFields|
    ensures ImageFields[i].required <==> ImageFields[i].name in ["subject", "style"]
  {
  }

  lemma VideoRequiredListed(i: int)
    requires 0 <= i < |VideoFields|
    ensures VideoFields[i].required <==> VideoFields[i].name in ["scene", "action", "duration_seconds"]
  {
  }

  lemma VoiceRequiredListed(i: int)
    requires 0 <= i < |VoiceFields|
    ensures VoiceFields[i].required && VoiceFields[i].name !in ["accent", "emotion", "pace"]
      <==> VoiceFields[i].name == "subject"
  {
  }

  /** The duration input's bounds are those of the validator's range check. */
  lemma DurationDefinitionMatchesCheck()
    ensures var d := Definition(FieldDefinitions["video"], "duration_seconds");
      d.Some? && d.value.kind == Number && d.value.min == Some(MinDuration) && d.value.max == Some(MaxDuration)
  {
    FieldsShape();
    assert Definition(VideoFields, "duration_seconds") == Some(VideoFields[2]);
  }

  /** A field is filled when the validator does not count it as missing. */
  predicate AllFilled(form: Form, fields: seq<string>) {
    forall i :: 0 <= i < |fields| ==> !Missing(form, fields[i])
  }

  /** When every listed field is filled and the duration is in range, there is no error. */
  lemma NoErrorsWhenFilled(table: RuleTable, form: Form, modality: string, model: string)
    requires modality in table
    requires AllFilled(form, table[modality].common)
    requires model in table[modality].models ==> AllFilled(form, table[modality].models[model])
    requires !DurationInvalid(form, modality)
    ensures ValidationErrors(table, form, modality, model) == []
  {
    var rules := table[modality];
    RequiredErrorsAreMessages(form, rules.common, "");
    FilterDropsAll(rules.common, f => Missing(form, f));
    if model in rules.models {
      RequiredErrorsAreMessages(form, rules.models[model], ModelSuffix(model));
      FilterDropsAll(rules.models[model], f => Missing(form, f));
    }
  }

  /** The value of `field` is a string that starts with a non-whitespace character. */
  predicate StartsFilled(form: Form, field: string) {
    field in form && form[field].Str? && form[field].s != "" && !IsWhiteSpace(form[field].s[0])
  }

  /** A string whose first character is not whitespace is never missing. */
  lemma TextFilled(form: Form, field: string)
    requires StartsFilled(form, field)
    ensures !Missing(form, field)
  {
    MissingIff(form, field);
  }

  lemma DurationInRange(form: Form, n: int)
    requires "duration_seconds" in form && form["duration_seconds"] == Num(n)
    requires MinDuration <= n <= MaxDuration
    ensures !Missing(form, "duration_seconds")
    ensures !DurationInvalid(form, "video")
  {
    ParseIntToString(n);
    MissingIff(form, "duration_seconds");
  }

  lemma VideoModelRules(model: string)
    requires model in RequiredFields["video"].models
    ensures RequiredFields["video"].models[model] == if model == "runway-gen3" then ["camera_motion"] else []
  {
    RulesShape();
    VideoRulesShape();
  }

  lemma FilledTwo(form: Form, a: string, b: string)
    requires !Missing(form, a) && !Missing(form, b)
    ensures AllFilled(form, [a, b])
  {
    var fields := [a, b];
    forall i | 0 <= i < |fields| ensures !Missing(form, fields[i]) {
      assert fields[i] == if i == 0 then a else b;
    }
  }

  lemma FilledThree(form: Form, a: string, b: string, c: string)
    requires !Missing(form, a) && !Missing(form, b) && !Missing(form, c)
    ensures AllFilled(form, [a, b, c])
  {
    var fields := [a, b, c];
    forall i | 0 <= i < |fields| ensures !Missing(form, fields[i]) {
      assert fields[i] == if i == 0 then a else if i == 1 then b else c;
    }
  }

  lemma ImageFilled(form: Form, model: string)
    requires model in RequiredFields["image"].models
    requires StartsFilled(form, "subject") && StartsFilled(form, "style")
    ensures AllFilled(form, RequiredFields["image"].common)
    ensures AllFilled(form, RequiredFields["image"].models[model])
  {
    RulesShape();
    ImageRulesShape();
    TextFilled(form, "subject");
    TextFilled(form, "style");
    FilledTwo(form, "subject", "style");
    assert AllFilled(form, []);
  }

  lemma ImageFormValid(form: Form, model: string)
    requires model in RequiredFields["image"].models
    requires StartsFilled(form, "subject") && StartsFilled(form, "style")
    ensures ValidationErrors(RequiredFields, form, "image", model) == []
  {
    ImageFilled(form, model);
    NoErrorsWhenFilled(RequiredFields, form, "image", model);
  }

  lemma VideoFilled(form: Form, model: string, n: int)
    requires model in RequiredFields["video"].models
    requires StartsFilled(form, "scene") && StartsFilled(form, "action") && StartsFilled(form, "camera_motion")
    requires "duration_seconds" in form && form["duration_seconds"] == Num(n)
    requires MinDuration <= n <= MaxDuration
    ensures AllFilled(form, RequiredFields["video"].common)
    ensures AllFilled(form, RequiredFields["video"].models[model])
  {
    VideoCommon();
    VideoModelRules(model);
    TextFilled(form, "scene");
    TextFilled(form, "action");
    TextFilled(form, "camera_motion");
    DurationInRange(form, n);
    FilledThree(form, "scene", "action", "duration_seconds");
    assert AllFilled(form, ["camera_motion"]);
    assert AllFilled(form, []);
  }

  lemma VideoFormValid(form: Form, model: string, n: int)
    requires model in RequiredFields["video"].models
    requires StartsFilled(form, "scene") && StartsFilled(form, "action") && StartsFilled(form, "camera_motion")
    requires "duration_seconds" in form && form["duration_seconds"] == Num(n)
    requires MinDuration <= n <= MaxDuration
    ensures ValidationErrors(RequiredFields, form, "video", model) == []
  {
    VideoFilled(form, model, n);
    DurationInRange(form, n);
    NoErrorsWhenFilled(RequiredFields, form, "video", model);
  }

  lemma VoiceFilled(form: Form, model: string)
    requires model in RequiredFields["voice"].models
    requires StartsFilled(form, "accent") && StartsFilled(form, "emotion") && StartsFilled(form, "pace")
    ensures AllFilled(form, RequiredFields["voice"].common)
    ensures AllFilled(form, RequiredFields["voice"].models[model])
  {
    RulesShape();
    VoiceRulesShape();
    TextFilled(form, "accent");
    TextFilled(form, "emotion");
    TextFilled(form, "pace");
    FilledThree(form, "accent", "emotion", "pace");
    assert AllFilled(form, []);
  }

  lemma VoiceFormValid(form: Form, model: string)
    requires model in RequiredFields["voice"].models
    requires StartsFilled(form, "accent") && StartsFilled(form, "emotion") && StartsFilled(form, "pace")
    ensures ValidationErrors(RequiredFields, form, "voice", model) == []
  {
    VoiceFilled(form, model);
    NoErrorsWhenFilled(RequiredFields, form, "voice", model);
  }

  lemma PortraitFilled()
    ensures StartsFilled(Portrait.values, "subject") && StartsFilled(Portrait.values, "style")
  {
  }

  lemma LandscapeFilled()
    ensures StartsFilled(Landscape.values, "subject") && StartsFilled(Landscape.values, "style")
  {
  }

  lemma FantasyFilled()
    ensures StartsFilled(Fantasy.values, "subject") && StartsFilled(Fantasy.values, "style")
  {
  }

  lemma CinematicFilled()
    ensures StartsFilled(Cinematic.values, "scene") && StartsFilled(Cinematic.values, "action")
    ensures StartsFilled(Cinematic.values, "camera_motion")
    ensures "duration_seconds" in Cinematic.values && Cinematic.values["duration_seconds"] == Num(10)
  {
  }

  lemma NatureFilled()
    ensures StartsFilled(Nature.values, "scene") && StartsFilled(Nature.values, "action")
    ensures StartsFilled(Nature.values, "camera_motion")
    ensures "duration_seconds" in Nature.values && Nature.values["duration_seconds"] == Num(15)
  {
  }

  lemma PodcastFilled()
    ensures StartsFilled(Podcast.values, "accent") && StartsFilled(Podcast.values, "emotion")
    ensures StartsFilled(Podcast.values, "pace")
  {
  }

  lemma AudiobookFilled()
    ensures StartsFilled(Audiobook.values, "accent") && StartsFilled(Audiobook.values, "emotion")
    ensures StartsFilled(Audiobook.values, "pace")
  {
  }

  lemma ImageTemplateFilled(key: string)
    requires key in Templates["image"]
    ensures StartsFilled(Templates["image"][key].values, "subject")
    ensures StartsFilled(Templates["image"][key].values, "style")
  {
    TemplatesShape();
    ImageTemplatesShape();
    if key == "portrait" {
      PortraitFilled();
    } else if key == "landscape" {
      LandscapeFilled();
    } else {
      FantasyFilled();
    }
  }

  lemma VideoTemplateFilled(key: string)
    requires key in Templates["video"]
    ensures var form := Templates["video"][key].values;
      && StartsFilled(form, "scene") && StartsFilled(form, "action") && StartsFilled(form, "camera_motion")
      && "duration_seconds" in form && form["duration_seconds"].Num?
      && MinDuration <= form["duration_seconds"].n <= MaxDuration
  {
    TemplatesShape();
    VideoTemplatesShape();
    if key == "cinematic" {
      CinematicFilled();
    } else {
      NatureFilled();
    }
  }

  lemma VoiceTemplateFilled(key: string)
    requires key in Templates["voice"]
    ensures StartsFilled(Templates["voice"][key].values, "accent")
    ensures StartsFilled(Templates["voice"][key].values, "emotion")
    ensures StartsFilled(Templates["voice"][key].values, "pace")
  {
    TemplatesShape();
    VoiceTemplatesShape();
    if key == "podcast" {
      PodcastFilled();
    } else {
      AudiobookFilled();
    }
  }

  lemma ImageTemplatesValid(key: string, model: string)
    requires key in Templates["image"] && model in RequiredFields["image"].models
    ensures ValidationErrors(RequiredFields, Templates["image"][key].values, "image", model) == []
  {
    ImageTemplateFilled(key);
    ImageFormValid(Templates["image"][key].values, model);
  }

  lemma VideoTemplatesValid(key: string, model: string)
    requires key in Templates["video"] && model in RequiredFields["video"].models
    ensures ValidationErrors(RequiredFields, Templates["video"][key].values, "video", model) == []
  {
    var form := Templates["video"][key].values;
    VideoTemplateFilled(key);
    VideoFormValid(form, model, form["duration_seconds"].n);
  }

  lemma VoiceTemplatesValid(key: string, model: string)
    requires key in Templates["voice"] && model in RequiredFields["voice"].models
    ensures ValidationErrors(RequiredFields, Templates["voice"][key].values, "voice", model) == []
  {
    VoiceTemplateFilled(key);
    VoiceFormValid(Templates["voice"][key].values, model);
  }

  /** Every template passes validation for every model of its modality. */
  lemma TemplatesValidate(m: string, key: string, model: string)
    requires m in Templates && key in Templates[m]
    requires m in RequiredFields && model in RequiredFields[m].models
    ensures ValidationErrors(RequiredFields, Templates[m][key].values, m, model) == []
  {
    ModalityCases(m);
    if m == "image" {
      ImageTemplatesValid(key, model);
    } else if m == "video" {
      VideoTemplatesValid(key, model);
    } else {
      VoiceTemplatesValid(key, model);
    }
  }

  /** Template keys are never the empty string, which the selector uses for "none". */
  lemma TemplateKeysNonEmpty(m: string, key: string)
    requires m in Templates && key in Templates[m]
    ensures key != ""
  {
    TemplatesShape();
    if m == "image" {
      ImageTemplatesShape();
    } else if m == "video" {
      VideoTemplatesShape();
    } else {
      VoiceTemplatesShape();
    }
  }

  /** Model ids in the rule table are never the empty string, which the selector uses for "none". */
  lemma ModelIdsNonEmpty(m: string, model: string)
    requires m in RequiredFields && model in RequiredFields[m].models
    ensures model != ""
  {
    RulesShape();
    ImageRulesShape();
    VideoRulesShape();
    VoiceRulesShape();
  }

  /** The video templates set durations 10 and 15, numbers inside the accepted range. */
  lemma VideoTemplateDurations()
    ensures "video" in Templates && Templates["video"].Keys == {"cinematic", "nature"}
    ensures Templates["video"]["cinematic"].values["duration_seconds"] == Num(10)
    ensures Templates["video"]["nature"].values["duration_seconds"] == Num(15)
  {
    TemplatesShape();
    VideoTemplatesShape();
    CinematicFilled();
    NatureFilled();
  }

  /** A formatted name is fixed by its characters one at a time. */
  lemma FormatFieldNameIs(field: string, expected: string)
    requires |expected| == |field|
    requires forall i :: 0 <= i < |field| ==> expected[i] == FormattedAt(field, i)
    ensures FormatFieldName(field) == expected
  {
    FormatFieldNameAt(field);
  }

  /** `duration_seconds` is shown as `Duration Seconds`. */
  lemma FormatDurationSeconds()
    ensures FormatFieldName("duration_seconds") == "Duration Seconds"
  {
    FormatFieldNameIs("duration_seconds", "Duration Seconds");
  }

  lemma FormatCameraMotion()
    ensures FormatFieldName("camera_motion") == "Camera Motion"
  {
    FormatFieldNameIs("camera_motion", "Camera Motion");
  }

  /** An empty form reports every common field of a modality, for any model without extra rules. */
  lemma EmptyFormErrors(modality: string, model: string)
    requires modality in RequiredFields
    ensures ReportedFields(RequiredFields, map[], modality, model) ==
      RequiredFields[modality].common
      + if modality == "video" && model == "runway-gen3" then ["camera_motion"] else []
  {
    OnlyCameraMotionIsModelSpecific();
    EmptyFormReportsAll(RequiredFields, modality, model);
  }

  lemma VideoCommon()
    ensures RequiredFields["video"].common == ["scene", "action", "duration_seconds"]
  {
    RulesShape();
    VideoRulesShape();
  }

  /** The messages of a known modality and a model with rules, stated through the missing fields. */
  lemma ValidationParts(table: RuleTable, form: Form, modality: string, model: string)
    requires modality in table && model in table[modality].models
    ensures ValidationErrors(table, form, modality, model) ==
      Messages(MissingFields(form, table[modality].common), "")
      + Messages(MissingFields(form, table[modality].models[model]), ModelSuffix(model))
      + (if DurationInvalid(form, modality) then [DurationError] else [])
  {
    RequiredErrorsAreMessages(form, table[modality].common, "");
    RequiredErrorsAreMessages(form, table[modality].models[model], ModelSuffix(model));
  }

  lemma MissingOfThree(form: Form, a: string, b: string, c: string)
    ensures MissingFields(form, [a, b, c]) ==
      (if Missing(form, a) then [a] else []) + (if Missing(form, b) then [b] else [])
      + (if Missing(form, c) then [c] else [])
  {
    var p := f => Missing(form, f);
    assert [a, b, c] == [a] + ([b] + [c]);
    FilterAppend([a], [b] + [c], p);
    FilterAppend([b], [c], p);
    MissingOfOne(form, a);
    MissingOfOne(form, b);
    MissingOfOne(form, c);
  }

  lemma MissingOfOne(form: Form, a: string)
    ensures MissingFields(form, [a]) == if Missing(form, a) then [a] else []
  {
  }

  /** A video form on a model with rules `modelFields`, over any table with the video common list. */
  lemma VideoErrors(table: RuleTable, form: Form, model: string, modelFields: seq<string>)
    requires "video" in table && table["video"].common == ["scene", "action", "duration_seconds"]
    requires model in table["video"].models && table["video"].models[model] == modelFields
    ensures ValidationErrors(table, form, "video", model) ==
      Messages(MissingFields(form, ["scene", "action", "duration_seconds"]), "")
      + Messages(MissingFields(form, modelFields), ModelSuffix(model))
      + (if DurationInvalid(form, "video") then [DurationError] else [])
  {
    ValidationParts(table, form, "video", model);
  }

  /**
   * Scene and action present, duration and camera motion absent, on
   * `runway-gen3`: exactly two messages, naming `Duration Seconds` and
   * `Camera Motion` (see `FormatDurationSeconds`, `FormatCameraMotion`).
   */
  lemma RunwayMissingDurationAndCamera(form: Form)
    requires StartsFilled(form, "scene") && StartsFilled(form, "action")
    requires "duration_seconds" !in form && "camera_motion" !in form
    ensures ValidationErrors(RequiredFields, form, "video", "runway-gen3")
      == [RequiredMessage("duration_seconds", ""), RequiredMessage("camera_motion", ModelSuffix("runway-gen3"))]
  {
    VideoCommon();
    VideoModelRules("runway-gen3");
    VideoErrors(RequiredFields, form, "runway-gen3", ["camera_motion"]);
    RunwayMessages(form);
  }

  lemma RunwayMessages(form: Form)
    requires StartsFilled(form, "scene") && StartsFilled(form, "action")
    requires "duration_seconds" !in form && "camera_motion" !in form
    ensures Messages(MissingFields(form, ["scene", "action", "duration_seconds"]), "")
      + Messages(MissingFields(form, ["camera_motion"]), ModelSuffix("runway-gen3"))
      + (if DurationInvalid(form, "video") then [DurationError] else [])
      == [RequiredMessage("duration_seconds", ""), RequiredMessage("camera_motion", ModelSuffix("runway-gen3"))]
  {
    TextFilled(form, "scene");
    TextFilled(form, "action");
    MissingOfThree(form, "scene", "action", "duration_seconds");
    MissingOfOne(form, "camera_motion");
    assert MissingFields(form, ["scene", "action", "duration_seconds"]) == ["duration_seconds"];
    assert MissingFields(form, ["camera_motion"]) == ["camera_motion"];
    assert !DurationInvalid(form, "video");
    SingleMessage("duration_seconds", "");
    SingleMessage("camera_motion", ModelSuffix("runway-gen3"));
  }

  lemma SingleMessage(field: string, suffix: string)
    ensures Messages([field], suffix) == [RequiredMessage(field, suffix)]
  {
  }

  /**
   * With scene and action filled, a printed integer outside [1, 60] as the
   * duration gives the range message alone on a model without extra rules.
   */
  lemma OutOfRangeDurationAlone(form: Form, n: int, model: string)
    requires StartsFilled(form, "scene") && StartsFilled(form, "action")
    requires "duration_seconds" in form && form["duration_seconds"] == Str(IntToString(n))
    requires n < MinDuration || n > MaxDuration
    requires model == "pika" || model == "sora"
    ensures ValidationErrors(RequiredFields, form, "video", model) == [DurationError]
  {
    VideoCommon();
    VideoModelRules(model);
    VideoErrors(RequiredFields, form, model, []);
    OutOfRangeMessages(form, n, model);
  }

  lemma OutOfRangeMessages(form: Form, n: int, model: string)
    requires StartsFilled(form, "scene") && StartsFilled(form, "action")
    requires "duration_seconds" in form && form["duration_seconds"] == Str(IntToString(n))
    requires n < MinDuration || n > MaxDuration
    ensures Messages(MissingFields(form, ["scene", "action", "duration_seconds"]), "")
      + Messages(MissingFields(form, []), ModelSuffix(model))
      + (if DurationInvalid(form, "video") then [DurationError] else [])
      == [DurationError]
  {
    TextFilled(form, "scene");
    TextFilled(form, "action");
    PrintedDuration(form, n);
    MissingOfThree(form, "scene", "action", "duration_seconds");
    assert MissingFields(form, ["scene", "action", "duration_seconds"]) == [];
    assert MissingFields(form, []) == [];
  }

  /** A printed integer as the duration is present, and range-checked as that integer. */
  lemma PrintedDuration(form: Form, n: int)
    requires "duration_seconds" in form && form["duration_seconds"] == Str(IntToString(n))
    ensures !Missing(form, "duration_seconds")
    ensures DurationInvalid(form, "video") <==> n < MinDuration || n > MaxDuration
  {
    IntToStringStart(n);
    assert StartsFilled(form, "duration_seconds");
    TextFilled(form, "duration_seconds");
    ParseIntToString(n);
  }

  /** The duration `"90"` on `pika`. */
  lemma PikaDurationNinety()
    ensures ValidationErrors(RequiredFields,
      map["duration_seconds" := Str("90"), "scene" := Str("x"), "action" := Str("y")], "video", "pika")
      == [DurationError]
  {
    var form := map["duration_seconds" := Str("90"), "scene" := Str("x"), "action" := Str("y")];
    assert IntToString(90) == "90";
    assert StartsFilled(form, "scene") && StartsFilled(form, "action");
    OutOfRangeDurationAlone(form, 90, "pika");
  }

  /** An image form with subject and style passes on `dalle-3`. */
  lemma DalleCatNoir()
    ensures ValidationErrors(RequiredFields, map["subject" := Str("cat"), "style" := Str("noir")], "image", "dalle-3") == []
  {
    var form := map["subject" := Str("cat"), "style" := Str("noir")];
    assert StartsFilled(form, "subject") && StartsFilled(form, "style");
    RulesShape();
    ImageRulesShape();
    ImageFormValid(form, "dalle-3");
  }
}
