/**
 * The rule form: the field state of one rule being written or edited, the
 * validator that fills the error record, and the submit step that hands the
 * rule to the parent editor.
 */
module RuleEngine {
  import opened Types
  import opened Text

  const NameRequired := "Rule name is required"
  const MembersRequired := "At least one member must be selected"
  const ConditionsRequired := "Conditions are required"

  /** The values offered by the trigger-period select. */
  const PeriodOptions: set<string> := {"daily", "weekly", "monthly", "custom"}

  /** JavaScript's `s || d` on a string: the empty string is falsy. */
  function OrDefault(s: string, d: string): string {
    if s == "" then d else s
  }

  /**
   * The field values a form opens with: those of the rule it edits, or the
   * defaults when it is adding a new rule. An empty trigger period falls back
   * to "daily"; no other field can be replaced by its default.
   */
  function InitialFields(initialRule: Option<RuleFields>): RuleFields {
    match initialRule
    case None => RuleFields("", Notification, "daily", [], "")
    case Some(r) =>
      RuleFields(OrDefault(r.name, ""), r.actionType, OrDefault(r.triggerPeriod, "daily"),
                 r.members, OrDefault(r.conditions, ""))
  }

  /** A new rule starts blank, as a daily notification to nobody. */
  lemma InitialFieldsDefaults()
    ensures InitialFields(None) == RuleFields("", Notification, "daily", [], "")
  {
  }

  /** Editing a rule shows it unchanged, except that an empty period shows as "daily". */
  lemma InitialFieldsOfRule(r: RuleFields)
    ensures r.triggerPeriod != "" ==> InitialFields(Some(r)) == r
    ensures r.triggerPeriod == "" ==> InitialFields(Some(r)) == r.(triggerPeriod := "daily")
  {
  }

  /**
   * The error record `validate` builds: one entry per failed check, each check
   * independent of the others.
   */
  function RuleErrors(name: string, members: seq<string>, conditions: string): map<string, string> {
    ErrorRecord(IsBlank(name), members == [], IsBlank(conditions))
  }

  /** The record with an entry for each failed check. */
  function ErrorRecord(nameBlank: bool, noMembers: bool, conditionsBlank: bool): map<string, string> {
    var e1 := AddIf(map[], nameBlank, "name", NameRequired);
    var e2 := AddIf(e1, noMembers, "members", MembersRequired);
    AddIf(e2, conditionsBlank, "conditions", ConditionsRequired)
  }

  /** Each check contributes its own key and message, whatever the other checks find. */
  lemma RuleErrorsKeys(name: string, members: seq<string>, conditions: string)
    ensures var r := RuleErrors(name, members, conditions);
      && r.Keys <= {"name", "members", "conditions"}
      && ("name" in r <==> IsBlank(name))
      && ("members" in r <==> members == [])
      && ("conditions" in r <==> IsBlank(conditions))
      && ("name" in r ==> r["name"] == NameRequired)
      && ("members" in r ==> r["members"] == MembersRequired)
      && ("conditions" in r ==> r["conditions"] == ConditionsRequired)
  {
  }

  /**
   * A rule passes validation exactly when its name and its conditions each
   * hold a non-whitespace character and at least one member is selected.
   */
  lemma RuleErrorsEmptyIff(name: string, members: seq<string>, conditions: string)
    ensures RuleErrors(name, members, conditions) == map[]
        <==> !AllWhitespace(name) && |members| > 0 && !AllWhitespace(conditions)
  {
    BlankIffAllWhitespace(name);
    BlankIffAllWhitespace(conditions);
    RuleErrorsKeys(name, members, conditions);
    var r := RuleErrors(name, members, conditions);
    if r != map[] {
      var k :| k in r;
    }
  }

  /** A form left entirely empty reports all three errors at once. */
  lemma EmptyFormReportsEveryError()
    ensures RuleErrors("", [], "").Keys == {"name", "members", "conditions"}
  {
    assert TrimStart("") == "";
  }

  /**
   * The trigger period after a run of change events on the custom-period
   * input, as the form is written: the input exists only while the period is
   * exactly "custom", so only events that arrive in that state take effect.
   * Each element of `typed` is the input's whole text after one event.
   */
  function PeriodAfterTypingAsWritten(period: string, typed: seq<string>): string
    decreases |typed|
  {
    if typed == [] then period
    else PeriodAfterTypingAsWritten(if period == "custom" then typed[0] else period, typed[1..])
  }

  /**
   * As written, the first keystroke replaces "custom" and removes the input,
   * so later keystrokes are lost: only the first text survives.
   */
  lemma {:induction false} CustomPeriodKeepsFirstTextAsWritten(typed: seq<string>)
    requires typed != [] && typed[0] != "custom"
    ensures PeriodAfterTypingAsWritten("custom", typed) == typed[0]
  {
    PeriodFixedAsWritten(typed[0], typed[1..]);
  }

  /** As written, once the period is not "custom" no later event reaches it. */
  lemma {:induction false} PeriodFixedAsWritten(period: string, typed: seq<string>)
    requires period != "custom"
    ensures PeriodAfterTypingAsWritten(period, typed) == period
    decreases |typed|
  {
    if typed != [] {
      PeriodFixedAsWritten(period, typed[1..]);
    }
  }

  /** Typing "24h" key by key as written stores "2". */
  lemma TypingTwentyFourHoursAsWritten()
    ensures PeriodAfterTypingAsWritten("custom", ["2", "24", "24h"]) == "2"
  {
    CustomPeriodKeepsFirstTextAsWritten(["2", "24", "24h"]);
  }

  /**
   * The trigger period after a run of change events when the input is shown
   * for as long as "custom" is the selected option (`customMode`), whatever
   * the text typed so far.
   */
  function PeriodAfterTyping(period: string, customMode: bool, typed: seq<string>): string
    decreases |typed|
  {
    if typed == [] then period
    else PeriodAfterTyping(if customMode then typed[0] else period, customMode, typed[1..])
  }

  /** With the input kept visible, the stored period is the last text typed, unchecked. */
  lemma {:induction false} CustomPeriodKeepsLastText(period: string, typed: seq<string>)
    requires typed != []
    ensures PeriodAfterTyping(period, true, typed) == typed[|typed| - 1]
    decreases |typed|
  {
    if |typed| > 1 {
      CustomPeriodKeepsLastText(typed[0], typed[1..]);
    }
  }

  /** Without "custom" selected, typing has no input to go to. */
  lemma {:induction false} PeriodUnchangedOutsideCustomMode(period: string, typed: seq<string>)
    ensures PeriodAfterTyping(period, false, typed) == period
    decreases |typed|
  {
    if typed != [] {
      PeriodUnchangedOutsideCustomMode(period, typed[1..]);
    }
  }

  /** The state of one open rule form. */
  class RuleForm {
    var name: string
    var actionType: ActionType
    var triggerPeriod: string
    /** Whether "custom" is the option chosen in the period select (the input is shown). */
    var customMode: bool
    var selectedMembers: seq<string>
    var conditions: string
    var errors: map<string, string>

    /** The rule the form currently describes. */
    function Fields(): RuleFields
      reads this
    {
      RuleFields(name, actionType, triggerPeriod, selectedMembers, conditions)
    }

    constructor (initialRule: Option<RuleFields>)
      ensures Fields() == InitialFields(initialRule)
      ensures customMode == (triggerPeriod == "custom")
      ensures errors == map[]
    {
      var f := InitialFields(initialRule);
      name := f.name;
      actionType := f.actionType;
      triggerPeriod := f.triggerPeriod;
      customMode := f.triggerPeriod == "custom";
      selectedMembers := f.members;
      conditions := f.conditions;
      errors := map[];
    }

    method SetName(text: string)
      modifies this`name
      ensures name == text
    {
      name := text;
    }

    method SetActionType(a: ActionType)
      modifies this`actionType
      ensures actionType == a
    {
      actionType := a;
    }

    /** Choosing an option of the period select; "custom" shows the free-text input. */
    method SelectTriggerPeriod(option: string)
      requires option in PeriodOptions
      modifies this`triggerPeriod, this`customMode
      ensures triggerPeriod == option
      ensures customMode == (option == "custom")
    {
      triggerPeriod := option;
      customMode := option == "custom";
    }

    /**
     * One change event on the custom-period input: the raw text becomes the
     * period, with no format check. Events only arrive while the input is shown.
     * This is the corrected behaviour: the input stays shown for as long as
     * "custom" is the chosen option, whatever has been typed.
     */
    method TypeCustomPeriod(text: string)
      modifies this`triggerPeriod
      ensures triggerPeriod == PeriodAfterTyping(old(triggerPeriod), customMode, [text])
      ensures customMode ==> triggerPeriod == text
    {
      if customMode {
        triggerPeriod := text;
      }
    }

    /**
     * The same change event as the form is written: the input is rendered only
     * while the period is exactly "custom", so the event takes effect only
     * then, and the text it stores removes the input again.
     */
    method TypeCustomPeriodAsWritten(text: string)
      modifies this`triggerPeriod
      ensures triggerPeriod == PeriodAfterTypingAsWritten(old(triggerPeriod), [text])
      ensures old(triggerPeriod) == "custom" ==> triggerPeriod == text
      ensures old(triggerPeriod) != "custom" ==> triggerPeriod == old(triggerPeriod)
    {
      if triggerPeriod == "custom" {
        triggerPeriod := text;
      }
    }

    method SetSelectedMembers(values: seq<string>)
      modifies this`selectedMembers
      ensures selectedMembers == values
    {
      selectedMembers := values;
    }

    method SetConditions(text: string)
      modifies this`conditions
      ensures conditions == text
    {
      conditions := text;
    }

    /** Rebuilds the error record from the current fields; true when it is empty. */
    method Validate() returns (ok: bool)
      modifies this`errors
      ensures errors == RuleErrors(name, selectedMembers, conditions)
      ensures ok <==> errors == map[]
    {
      var newErrors: map<string, string> := map[];
      newErrors := AddIf(newErrors, IsBlank(name), "name", NameRequired);
      newErrors := AddIf(newErrors, selectedMembers == [], "members", MembersRequired);
      newErrors := AddIf(newErrors, IsBlank(conditions), "conditions", ConditionsRequired);
      errors := newErrors;
      // `Object.keys(newErrors).length === 0`: the record has no entry.
      ok := newErrors == map[];
    }

    /**
     * Submitting: an invalid form emits nothing; a valid one emits its fields
     * exactly as entered, untrimmed.
     */
    method HandleSubmit() returns (submitted: Option<RuleFields>)
      modifies this`errors
      ensures errors == RuleErrors(name, selectedMembers, conditions)
      ensures submitted.None? <==> errors != map[]
      ensures submitted.Some? ==> submitted.value == Fields()
    {
      var ok := Validate();
      if !ok {
        return None;
      }
      submitted := Some(RuleFields(name, actionType, triggerPeriod, selectedMembers, conditions));
    }
  }
}
