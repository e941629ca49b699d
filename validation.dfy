/**
 * The rule-table validator: `validatePromptData`, its message formatting
 * `formatFieldName`, and the advisory predicate `isFieldRequired`.
 */
module Validation {
  import opened Wrappers
  import opened JsValues
  import opened Seqs
  import opened Config

  const DurationError := "Duration must be between 1 and 60 seconds"
  const MinDuration := 1
  const MaxDuration := 60

  // ---------------------------------------------------------------- field names

  /** `toUpperCase` on one character, for the ASCII letters field names use. */
  function ToUpper(c: char): char {
    if 'a' <= c <= 'z' then ((c as int) - 32) as char else c
  }

  /** `s.split("_")`: the segments between underscores, empty ones included. */
  function SplitUnderscore(s: string): (parts: seq<string>)
    ensures |parts| >= 1
    decreases |s|
  {
    if s == "" then [""]
    else
      var rest := SplitUnderscore(s[1..]);
      if s[0] == '_' then [""] + rest else [[s[0]] + rest[0]] + rest[1..]
  }

  /** `word.charAt(0).toUpperCase() + word.slice(1)`. */
  function Capitalize(word: string): string {
    if word == "" then "" else [ToUpper(word[0])] + word[1..]
  }

  function CapitalizeAll(words: seq<string>): (r: seq<string>)
    ensures |r| == |words|
  {
    seq(|words|, i requires 0 <= i < |words| => Capitalize(words[i]))
  }

  /** `formatFieldName`: split at `_`, capitalise each segment, join with spaces. */
  function FormatFieldName(field: string): string {
    Join(CapitalizeAll(SplitUnderscore(field)), " ")
  }

  /**
   * What `FormatFieldName` does at one position: an underscore becomes a space,
   * a character that starts a segment is upper-cased, any other is kept.
   */
  function FormattedAt(s: string, i: nat): char
    requires i < |s|
  {
    if s[i] == '_' then ' '
    else if i == 0 || s[i - 1] == '_' then ToUpper(s[i])
    else s[i]
  }

  /** The same formatting computed left to right; `atStart` says a segment begins here. */
  ghost function FormatFrom(s: string, atStart: bool): string
    decreases |s|
  {
    if s == "" then ""
    else if s[0] == '_' then " " + FormatFrom(s[1..], true)
    else [if atStart then ToUpper(s[0]) else s[0]] + FormatFrom(s[1..], false)
  }

  /** `FormattedAt` when the first character may or may not start a segment. */
  function FormattedFrom(s: string, i: nat, atStart: bool): char
    requires i < |s|
  {
    if s[i] == '_' then ' '
    else if (i == 0 && atStart) || (i > 0 && s[i - 1] == '_') then ToUpper(s[i])
    else s[i]
  }

  lemma {:induction false} FormatFromAt(s: string, atStart: bool)
    ensures |FormatFrom(s, atStart)| == |s|
    ensures forall i :: 0 <= i < |s| ==> FormatFrom(s, atStart)[i] == FormattedFrom(s, i, atStart)
    decreases |s|
  {
    if s != "" {
      var t := s[1..];
      FormatFromAt(t, s[0] == '_');
      var r := FormatFrom(s, atStart);
      var head := if s[0] == '_' then " " else [if atStart then ToUpper(s[0]) else s[0]];
      assert r == head + FormatFrom(t, s[0] == '_');
      forall i | 1 <= i < |s| ensures r[i] == FormattedFrom(s, i, atStart) {
        assert r[i] == FormatFrom(t, s[0] == '_')[i - 1];
        assert s[i] == t[i - 1];
        if i > 1 { assert s[i - 1] == t[i - 2]; }
      }
    }
  }

  lemma JoinCons(c: char, first: string, more: seq<string>)
    ensures Join([[c] + first] + more, " ") == [c] + Join([first] + more, " ")
  {
    if more != [] {
      assert ([[c] + first] + more)[1..] == more;
      assert ([first] + more)[1..] == more;
    }
  }

  /** Split, capitalise (the first segment only when `atStart`) and join equals `FormatFrom`. */
  lemma {:induction false} SplitJoinFormat(s: string, atStart: bool)
    ensures var parts := SplitUnderscore(s);
      Join([if atStart then Capitalize(parts[0]) else parts[0]] + CapitalizeAll(parts[1..]), " ")
        == FormatFrom(s, atStart)
    decreases |s|
  {
    if s != "" {
      SplitJoinFormat(s[1..], s[0] == '_');
      if s[0] == '_' {
        SplitJoinUnderscore(s, atStart);
      } else {
        SplitJoinLetter(s, atStart);
      }
    }
  }

  /** The step of `SplitJoinFormat` past a leading underscore. */
  lemma SplitJoinUnderscore(s: string, atStart: bool)
    requires s != "" && s[0] == '_'
    requires var rest := SplitUnderscore(s[1..]);
      Join([Capitalize(rest[0])] + CapitalizeAll(rest[1..]), " ") == FormatFrom(s[1..], true)
    ensures var parts := SplitUnderscore(s);
      Join([if atStart then Capitalize(parts[0]) else parts[0]] + CapitalizeAll(parts[1..]), " ")
        == FormatFrom(s, atStart)
  {
    var parts, rest := SplitUnderscore(s), SplitUnderscore(s[1..]);
    assert [Capitalize(rest[0])] + CapitalizeAll(rest[1..]) == CapitalizeAll(rest);
    assert parts == [""] + rest;
    assert parts[1..] == rest;
    var caps := CapitalizeAll(rest);
    assert ([""] + caps)[1..] == caps;
  }

  /** The step of `SplitJoinFormat` past a leading character other than an underscore. */
  lemma SplitJoinLetter(s: string, atStart: bool)
    requires s != "" && s[0] != '_'
    requires var rest := SplitUnderscore(s[1..]);
      Join([rest[0]] + CapitalizeAll(rest[1..]), " ") == FormatFrom(s[1..], false)
    ensures var parts := SplitUnderscore(s);
      Join([if atStart then Capitalize(parts[0]) else parts[0]] + CapitalizeAll(parts[1..]), " ")
        == FormatFrom(s, atStart)
  {
    var parts, rest := SplitUnderscore(s), SplitUnderscore(s[1..]);
    var c := if atStart then ToUpper(s[0]) else s[0];
    assert parts[0] == [s[0]] + rest[0] && parts[1..] == rest[1..];
    assert (if atStart then Capitalize(parts[0]) else parts[0]) == [c] + rest[0];
    JoinCons(c, rest[0], CapitalizeAll(rest[1..]));
  }

  /** `formatFieldName` characterised position by position. */
  lemma FormatFieldNameAt(field: string)
    ensures |FormatFieldName(field)| == |field|
    ensures forall i :: 0 <= i < |field| ==> FormatFieldName(field)[i] == FormattedAt(field, i)
  {
    var parts := SplitUnderscore(field);
    SplitJoinFormat(field, true);
    assert [Capitalize(parts[0])] + CapitalizeAll(parts[1..]) == CapitalizeAll(parts);
    FormatFromAt(field, true);
    forall i | 0 <= i < |field| ensures FormatFieldName(field)[i] == FormattedAt(field, i) {
      assert FormatFrom(field, true)[i] == FormattedFrom(field, i, true);
    }
  }

  /** A formatted field name contains no underscore. */
  lemma FormatFieldNameNoUnderscore(field: string)
    ensures '_' !in FormatFieldName(field)
  {
    FormatFieldNameAt(field);
    var r := FormatFieldName(field);
    forall i | 0 <= i < |r| ensures r[i] != '_' {
      assert r[i] == FormattedAt(field, i);
    }
  }

  // ---------------------------------------------------------------- missing values

  /** `!formData[field] || formData[field].toString().trim() === ""`. */
  predicate Missing(form: Form, field: string) {
    field !in form || !Truthy(form[field]) || Trim(ToStr(form[field])) == ""
  }

  /** Missing means: absent, a blank (empty or all-whitespace) string, or the number 0. */
  lemma MissingIff(form: Form, field: string)
    ensures Missing(form, field) <==>
      field !in form ||
      match form[field]
      case Str(s) => forall i :: 0 <= i < |s| ==> IsWhiteSpace(s[i])
      case Num(n) => n == 0
  {
    if field in form {
      match form[field]
      case Str(s) => TrimBlank(s);
      case Num(n) => IntToStringNotBlank(n);
    }
  }

  // ---------------------------------------------------------------- messages

  function RequiredMessage(field: string, suffix: string): string {
    FormatFieldName(field) + " is required" + suffix
  }

  /** The tail of a model-specific message: `" for <model>"`. */
  function ModelSuffix(model: string): string {
    " for " + model
  }

  /** The messages one `forEach` over `fields` pushes, in order. */
  function RequiredErrors(form: Form, fields: seq<string>, suffix: string): seq<string>
    decreases |fields|
  {
    if fields == [] then []
    else
      var last := fields[|fields| - 1];
      RequiredErrors(form, fields[..|fields| - 1], suffix)
        + (if Missing(form, last) then [RequiredMessage(last, suffix)] else [])
  }

  /** The fields of `fields` that are missing, in order. */
  function MissingFields(form: Form, fields: seq<string>): seq<string> {
    Filter(fields, f => Missing(form, f))
  }

  function Messages(fields: seq<string>, suffix: string): (r: seq<string>)
    ensures |r| == |fields|
  {
    seq(|fields|, i requires 0 <= i < |fields| => RequiredMessage(fields[i], suffix))
  }

  /** One message per missing field, in the order of `fields`, and none for a present one. */
  lemma {:induction false} RequiredErrorsAreMessages(form: Form, fields: seq<string>, suffix: string)
    ensures RequiredErrors(form, fields, suffix) == Messages(MissingFields(form, fields), suffix)
    decreases |fields|
  {
    if fields != [] {
      var init, last := fields[..|fields| - 1], fields[|fields| - 1];
      RequiredErrorsAreMessages(form, init, suffix);
      assert fields == init + [last];
      FilterAppend(init, [last], f => Missing(form, f));
      assert Filter([last], f => Missing(form, f)) == if Missing(form, last) then [last] else [];
    }
  }

  // ---------------------------------------------------------------- the validator

  /** The `duration_seconds` check: video only, value truthy, parse NaN or outside [1, 60]. */
  predicate DurationInvalid(form: Form, modality: string) {
    && modality == "video"
    && "duration_seconds" in form
    && Truthy(form["duration_seconds"])
    && var d := ParseInt(ToStr(form["duration_seconds"]));
       d.None? || d.value < MinDuration || d.value > MaxDuration
  }

  /** The error list `validatePromptData` returns, against the rule table `table`. */
  function ValidationErrors(table: RuleTable, form: Form, modality: string, model: string): seq<string> {
    if modality !in table then ["Invalid modality: " + modality]
    else
      var rules := table[modality];
      RequiredErrors(form, rules.common, "")
        + (if model in rules.models then RequiredErrors(form, rules.models[model], ModelSuffix(model)) else [])
        + (if DurationInvalid(form, modality) then [DurationError] else [])
  }

  /** One `forEach` over a list of required fields, pushing a message per missing one. */
  method CheckRequired(form: Form, fields: seq<string>, suffix: string) returns (errors: seq<string>)
    ensures errors == RequiredErrors(form, fields, suffix)
  {
    errors := [];
    for i := 0 to |fields|
      invariant errors == RequiredErrors(form, fields[..i], suffix)
    {
      var field := fields[i];
      assert fields[..i + 1][..i] == fields[..i];
      if Missing(form, field) {
        errors := errors + [RequiredMessage(field, suffix)];
      }
    }
    assert fields[..|fields|] == fields;
  }

  /** `validatePromptData(formData, modality, model)` against the rule table `table`. */
  method ValidateWith(table: RuleTable, form: Form, modality: string, model: string) returns (errors: seq<string>)
    ensures errors == ValidationErrors(table, form, modality, model)
  {
    if modality !in table {
      return ["Invalid modality: " + modality];
    }
    var rules := table[modality];
    errors := CheckRequired(form, rules.common, "");
    if model in rules.models {
      var modelErrors := CheckRequired(form, rules.models[model], ModelSuffix(model));
      errors := errors + modelErrors;
    }
    if modality == "video" && "duration_seconds" in form && Truthy(form["duration_seconds"]) {
      var duration := ParseInt(ToStr(form["duration_seconds"]));
      if duration.None? || duration.value < MinDuration || duration.value > MaxDuration {
        errors := errors + [DurationError];
      }
    }
  }

  /** `validatePromptData` as the application calls it, with its rule table. */
  method ValidatePromptData(form: Form, modality: string, model: string) returns (errors: seq<string>)
    ensures errors == ValidationErrors(RequiredFields, form, modality, model)
  {
    errors := ValidateWith(RequiredFields, form, modality, model);
  }

  /** `isFieldRequired(fieldName, modality, model)`. */
  function IsFieldRequired(table: RuleTable, field: string, modality: string, model: string): bool {
    if modality !in table then false
    else if field in table[modality].common then true
    else model in table[modality].models && field in table[modality].models[model]
  }

  /** The fields a required-field message is reported for, in message order. */
  function ReportedFields(table: RuleTable, form: Form, modality: string, model: string): seq<string> {
    if modality !in table then []
    else
      var rules := table[modality];
      MissingFields(form, rules.common)
        + (if model in rules.models then MissingFields(form, rules.models[model]) else [])
  }

  /**
   * `validate` and `isFieldRequired` agree: a field gets a required-field
   * message exactly when it is required and missing.
   */
  lemma ReportedIffRequiredAndMissing(table: RuleTable, form: Form, modality: string, model: string, field: string)
    ensures field in ReportedFields(table, form, modality, model)
        <==> IsFieldRequired(table, field, modality, model) && Missing(form, field)
  {
    if modality in table {
      var rules := table[modality];
      FilterMembers(rules.common, f => Missing(form, f), field);
      if model in rules.models {
        FilterMembers(rules.models[model], f => Missing(form, f), field);
      }
    }
  }

  /**
   * The order of the messages for a known modality: one per missing common
   * field, then one per missing field of the model's list, then at most the
   * duration message, which is there exactly when the duration check fails.
   */
  lemma ValidationOrder(table: RuleTable, form: Form, modality: string, model: string)
    requires modality in table
    ensures var errors := ValidationErrors(table, form, modality, model);
      var rules := table[modality];
      var common := MissingFields(form, rules.common);
      var reported := ReportedFields(table, form, modality, model);
      && |errors| == |reported| + (if DurationInvalid(form, modality) then 1 else 0)
      && (forall i :: 0 <= i < |common| ==> errors[i] == RequiredMessage(reported[i], ""))
      && (forall i :: |common| <= i < |reported| ==> errors[i] == RequiredMessage(reported[i], ModelSuffix(model)))
      && (DurationInvalid(form, modality) ==> errors[|errors| - 1] == DurationError)
  {
    var rules := table[modality];
    var common := MissingFields(form, rules.common);
    var extra := if model in rules.models then MissingFields(form, rules.models[model]) else [];
    var tail := if DurationInvalid(form, modality) then [DurationError] else [];
    ValidationAsMessages(table, form, modality, model);
    MessagesConcat(common, extra, "", ModelSuffix(model), tail);
  }

  /** The validator's output and its report, both written through the missing fields. */
  lemma ValidationAsMessages(table: RuleTable, form: Form, modality: string, model: string)
    requires modality in table
    ensures var rules := table[modality];
      var common := MissingFields(form, rules.common);
      var extra := if model in rules.models then MissingFields(form, rules.models[model]) else [];
      && ValidationErrors(table, form, modality, model)
         == Messages(common, "") + Messages(extra, ModelSuffix(model))
            + (if DurationInvalid(form, modality) then [DurationError] else [])
      && ReportedFields(table, form, modality, model) == common + extra
  {
    var rules := table[modality];
    RequiredErrorsAreMessages(form, rules.common, "");
    if model in rules.models {
      RequiredErrorsAreMessages(form, rules.models[model], ModelSuffix(model));
    } else {
      var common := MissingFields(form, rules.common);
      assert Messages([], ModelSuffix(model)) == [];
      assert common + [] == common;
      assert RequiredErrors(form, rules.common, "") + [] == RequiredErrors(form, rules.common, "");
    }
  }

  /** Indexing into two message lists and a tail laid end to end. */
  lemma MessagesConcat(a: seq<string>, b: seq<string>, sa: string, sb: string, tail: seq<string>)
    ensures var errors := Messages(a, sa) + Messages(b, sb) + tail;
      && |errors| == |a + b| + |tail|
      && (forall i :: 0 <= i < |a| ==> errors[i] == RequiredMessage((a + b)[i], sa))
      && (forall i :: |a| <= i < |a + b| ==> errors[i] == RequiredMessage((a + b)[i], sb))
      && (tail != [] ==> errors[|errors| - 1] == tail[|tail| - 1])
  {
    var errors := Messages(a, sa) + Messages(b, sb) + tail;
    forall i | |a| <= i < |a + b| ensures errors[i] == RequiredMessage((a + b)[i], sb) {
      assert errors[i] == Messages(b, sb)[i - |a|];
    }
  }

  /** An unknown modality yields exactly one message and no other check. */
  lemma UnknownModality(table: RuleTable, form: Form, modality: string, model: string)
    requires modality !in table
    ensures ValidationErrors(table, form, modality, model) == ["Invalid modality: " + modality]
    ensures ReportedFields(table, form, modality, model) == []
  {
  }

  /** At most one message per listed field, plus the duration message. */
  lemma ValidationBound(table: RuleTable, form: Form, modality: string, model: string)
    requires modality in table
    ensures |ValidationErrors(table, form, modality, model)| <=
      |table[modality].common|
      + (if model in table[modality].models then |table[modality].models[model]| else 0) + 1
  {
    ValidationOrder(table, form, modality, model);
  }

  /** A model with no entry in the table adds no model-specific message. */
  lemma UnlistedModelAddsNothing(table: RuleTable, form: Form, modality: string, model: string)
    requires modality in table && model !in table[modality].models
    ensures ReportedFields(table, form, modality, model) == MissingFields(form, table[modality].common)
  {
    assert MissingFields(form, table[modality].common) + [] == MissingFields(form, table[modality].common);
  }

  /** With an empty form every listed field is reported. */
  lemma EmptyFormReportsAll(table: RuleTable, modality: string, model: string)
    requires modality in table
    ensures ReportedFields(table, map[], modality, model) ==
      table[modality].common + (if model in table[modality].models then table[modality].models[model] else [])
  {
    var rules := table[modality];
    FilterKeepsAll(rules.common, f => Missing(map[], f));
    if model in rules.models {
      FilterKeepsAll(rules.models[model], f => Missing(map[], f));
    }
  }

  /** A whitespace-only string has no leading integer. */
  lemma ParseIntBlank(s: string)
    requires forall i :: 0 <= i < |s| ==> IsWhiteSpace(s[i])
    ensures ParseInt(s) == None
  {
    TrimStartSpec(s);
  }

  /** A non-empty whitespace-only duration fails both the required check and the range check. */
  lemma BlankDurationReportedTwice(table: RuleTable, form: Form, model: string)
    requires "video" in table && "duration_seconds" in table["video"].common
    requires "duration_seconds" in form && form["duration_seconds"].Str?
    requires var s := form["duration_seconds"].s; s != "" && forall i :: 0 <= i < |s| ==> IsWhiteSpace(s[i])
    ensures "duration_seconds" in ReportedFields(table, form, "video", model)
    ensures DurationInvalid(form, "video")
  {
    MissingIff(form, "duration_seconds");
    ReportedIffRequiredAndMissing(table, form, "video", model, "duration_seconds");
    ParseIntBlank(form["duration_seconds"].s);
  }

  /** The number 0 is falsy: it fails the required check but skips the range check. */
  lemma ZeroDurationReportedOnce(table: RuleTable, form: Form, model: string)
    requires "video" in table && "duration_seconds" in table["video"].common
    requires "duration_seconds" in form && form["duration_seconds"] == Num(0)
    ensures "duration_seconds" in ReportedFields(table, form, "video", model)
    ensures !DurationInvalid(form, "video")
  {
    ReportedIffRequiredAndMissing(table, form, "video", model, "duration_seconds");
  }

  /** A present duration is range-checked by its leading integer. */
  lemma DurationReadsLeadingInteger(form: Form, n: int, rest: string)
    requires rest == [] || !IsDigit(rest[0])
    requires "duration_seconds" in form && form["duration_seconds"] == Str(IntToString(n) + rest)
    ensures DurationInvalid(form, "video") <==> n < MinDuration || n > MaxDuration
  {
    ParseIntPrefix(n, rest);
    assert IntToString(n) != "";
  }
}
