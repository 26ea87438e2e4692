/**
 * The template draft editor: the name, description and pending rule list of
 * a template being created or edited, the position-keyed rule editing that
 * acts on the pending list, the validator, and the save step that gives every
 * rule its position as id.
 */
module EditModal {
  import opened Types
  import opened Text
  import RuleEngine

  const NameRequired := "Template name is required"
  const DescriptionRequired := "Description is required"

  /** The error record the draft validator builds. */
  function DraftErrors(name: string, description: string): map<string, string> {
    var e1 := AddIf(map[], IsBlank(name), "name", NameRequired);
    AddIf(e1, IsBlank(description), "description", DescriptionRequired)
  }

  /** The record has a `name` entry iff the name is blank, a `description` entry iff the description is. */
  lemma DraftErrorsKeys(name: string, description: string)
    ensures var r := DraftErrors(name, description);
      && r.Keys <= {"name", "description"}
      && ("name" in r <==> IsBlank(name))
      && ("description" in r <==> IsBlank(description))
      && ("name" in r ==> r["name"] == NameRequired)
      && ("description" in r ==> r["description"] == DescriptionRequired)
  {
  }

  /** A draft is valid exactly when its name and its description each hold a non-whitespace character. */
  lemma DraftErrorsEmptyIff(name: string, description: string)
    ensures DraftErrors(name, description) == map[] <==> !AllWhitespace(name) && !AllWhitespace(description)
  {
    BlankIffAllWhitespace(name);
    BlankIffAllWhitespace(description);
    DraftErrorsKeys(name, description);
    var r := DraftErrors(name, description);
    if r != map[] {
      var k :| k in r;
    }
  }

  /** `rules.map(r => ({ name, actionType, triggerPeriod, members, conditions }))`. */
  function StripIds(rules: seq<Rule>): seq<RuleFields> {
    if rules == [] then [] else [FieldsOf(rules[0])] + StripIds(rules[1..])
  }

  /** Position by position, the stripped list holds each rule's fields without its id. */
  lemma {:induction false} StripIdsAt(rules: seq<Rule>)
    ensures |StripIds(rules)| == |rules|
    ensures forall i :: 0 <= i < |rules| ==> StripIds(rules)[i] == FieldsOf(rules[i])
  {
    if rules != [] {
      StripIdsAt(rules[1..]);
    }
  }

  /** The pending rules a draft starts with: the initial template's rules without ids, or none. */
  function InitialRules(initialTemplate: Option<ChamaTemplate>): seq<RuleFields> {
    match initialTemplate
    case None => []
    case Some(t) => StripIds(t.rules)
  }

  /** `rules.map((rule, index) => ({ ...rule, id: (start + index).toString() }))`. */
  function NumberedFrom(rules: seq<RuleFields>, start: nat): seq<Rule>
    decreases |rules|
  {
    if rules == [] then []
    else [RuleWithId(rules[0], NatToString(start))] + NumberedFrom(rules[1..], start + 1)
  }

  /** The rules of a saved template: each pending rule with its position as id. */
  function Renumbered(rules: seq<RuleFields>): seq<Rule> {
    NumberedFrom(rules, 0)
  }

  lemma {:induction false} NumberedFromAt(rules: seq<RuleFields>, start: nat)
    ensures |NumberedFrom(rules, start)| == |rules|
    ensures forall i :: 0 <= i < |rules| ==>
      NumberedFrom(rules, start)[i] == RuleWithId(rules[i], NatToString(start + i))
    decreases |rules|
  {
    if rules != [] {
      NumberedFromAt(rules[1..], start + 1);
      var r := NumberedFrom(rules, start);
      forall i | 0 <= i < |rules|
        ensures r[i] == RuleWithId(rules[i], NatToString(start + i))
      {
        if i > 0 {
          assert r[i] == NumberedFrom(rules[1..], start + 1)[i - 1];
        }
      }
    }
  }

  /**
   * Saving keeps the length; rule i gets id `i.toString()` and keeps every
   * other field of pending rule i.
   */
  lemma RenumberedAt(rules: seq<RuleFields>)
    ensures |Renumbered(rules)| == |rules|
    ensures forall i :: 0 <= i < |rules| ==>
      Renumbered(rules)[i].id == NatToString(i) && FieldsOf(Renumbered(rules)[i]) == rules[i]
  {
    NumberedFromAt(rules, 0);
    forall i | 0 <= i < |rules|
      ensures Renumbered(rules)[i].id == NatToString(i) && FieldsOf(Renumbered(rules)[i]) == rules[i]
    {
      FieldsOfRuleWithId(rules[i], NatToString(i));
    }
  }

  /** The ids given on save are pairwise distinct. */
  lemma RenumberedIdsDistinct(rules: seq<RuleFields>)
    ensures forall i, j :: 0 <= i < j < |Renumbered(rules)| ==> Renumbered(rules)[i].id != Renumbered(rules)[j].id
  {
    RenumberedAt(rules);
    forall i, j | 0 <= i < j < |rules|
      ensures Renumbered(rules)[i].id != Renumbered(rules)[j].id
    {
      NatToStringInjective(i, j);
    }
  }

  /** A lone pending rule is saved with id "0". */
  lemma RenumberedSingle(rule: RuleFields)
    ensures Renumbered([rule]) == [RuleWithId(rule, "0")]
  {
    assert NatToString(0) == "0";
    assert [rule][1..] == [];
    assert NumberedFrom([rule], 0) == [RuleWithId(rule, NatToString(0))] + NumberedFrom([], 1);
  }

  /** Stripping the ids of saved rules gives back the pending list. */
  lemma StripIdsRenumbered(rules: seq<RuleFields>)
    ensures StripIds(Renumbered(rules)) == rules
  {
    RenumberedAt(rules);
    StripIdsAt(Renumbered(rules));
  }

  /**
   * Reopening a saved template and saving it untouched gives back the same
   * rules, because saved ids are already the rules' positions.
   */
  lemma RenumberedStripIds(rules: seq<Rule>)
    requires forall i :: 0 <= i < |rules| ==> rules[i].id == NatToString(i)
    ensures Renumbered(StripIds(rules)) == rules
  {
    var pending := StripIds(rules);
    StripIdsAt(rules);
    RenumberedAt(pending);
    forall i | 0 <= i < |rules| ensures Renumbered(pending)[i] == rules[i] {
      RuleWithIdFieldsOf(rules[i]);
      RuleWithIdFieldsOf(Renumbered(pending)[i]);
    }
  }

  /** `updatedRules.splice(index, 1)`: removes the rule at `index`; an index past the end removes nothing. */
  function RemoveAt(rules: seq<RuleFields>, index: nat): seq<RuleFields> {
    if index < |rules| then rules[..index] + rules[index + 1..] else rules
  }

  /** Removing at an in-bounds index drops exactly that rule and shifts the later ones left. */
  lemma RemoveAtShifts(rules: seq<RuleFields>, index: nat)
    requires index < |rules|
    ensures |RemoveAt(rules, index)| == |rules| - 1
    ensures forall k :: 0 <= k < index ==> RemoveAt(rules, index)[k] == rules[k]
    ensures forall k :: index <= k < |rules| - 1 ==> RemoveAt(rules, index)[k] == rules[k + 1]
    ensures multiset(RemoveAt(rules, index)) + multiset{rules[index]} == multiset(rules)
  {
    assert rules == rules[..index] + [rules[index]] + rules[index + 1..];
  }

  /** `members.find(m => m.id === id)`: the first member with that id, if any. */
  function FindMember(members: seq<Member>, id: string): (r: Option<Member>)
    ensures r.None? <==> forall k :: 0 <= k < |members| ==> members[k].id != id
    ensures r.Some? ==> exists k :: 0 <= k < |members| && members[k] == r.value && members[k].id == id
                                   && forall j :: 0 <= j < k ==> members[j].id != id
  {
    if members == [] then None
    else if members[0].id == id then Some(members[0])
    else
      var r := FindMember(members[1..], id);
      if r.Some? then
        var k :| 0 <= k < |members[1..]| && members[1..][k] == r.value && members[1..][k].id == id
                 && forall j :: 0 <= j < k ==> members[1..][j].id != id;
        assert members[k + 1] == r.value;
        r
      else r
  }

  /** The text shown for one member id of a rule: the member's name, or the raw id. */
  function DisplayName(members: seq<Member>, id: string): (r: string)
    ensures (forall k :: 0 <= k < |members| ==> members[k].id != id) ==> r == id
    ensures forall k :: (0 <= k < |members| && members[k].id == id
                         && forall j :: 0 <= j < k ==> members[j].id != id) ==> r == members[k].name
  {
    match FindMember(members, id)
    case Some(m) => m.name
    case None => id
  }

  /** `rule.members.map(id => ...)`: the display text of each member id, in order. */
  function MemberNames(members: seq<Member>, ids: seq<string>): (r: seq<string>)
    ensures |r| == |ids|
    ensures forall i :: 0 <= i < |ids| ==> r[i] == DisplayName(members, ids[i])
  {
    if ids == [] then [] else [DisplayName(members, ids[0])] + MemberNames(members, ids[1..])
  }

  /** The state of the template draft editor. */
  class TemplateEditor {
    var name: string
    var description: string
    /** The pending rules, without ids, in insertion order. */
    var rules: seq<RuleFields>
    var errors: map<string, string>
    /** The position the rule form is editing; `None` when it is adding a rule. */
    var editingRuleIndex: Option<nat>

    constructor (initialTemplate: Option<ChamaTemplate>)
      ensures name == (if initialTemplate.Some? then initialTemplate.value.name else "")
      ensures description == (if initialTemplate.Some? then initialTemplate.value.description else "")
      ensures rules == InitialRules(initialTemplate)
      ensures errors == map[] && editingRuleIndex == None
    {
      match initialTemplate {
        case None =>
          name, description, rules := "", "", [];
        case Some(t) =>
          name, description, rules := RuleEngine.OrDefault(t.name, ""), RuleEngine.OrDefault(t.description, ""),
                                      StripIds(t.rules);
      }
      errors := map[];
      editingRuleIndex := None;
    }

    method SetName(text: string)
      modifies this`name
      ensures name == text
    {
      name := text;
    }

    method SetDescription(text: string)
      modifies this`description
      ensures description == text
    {
      description := text;
    }

    /** Rebuilds the error record from the name and description; true when it is empty. */
    method Validate() returns (ok: bool)
      modifies this`errors
      ensures errors == DraftErrors(name, description)
      ensures ok <==> errors == map[]
    {
      var newErrors: map<string, string> := map[];
      newErrors := AddIf(newErrors, IsBlank(name), "name", NameRequired);
      newErrors := AddIf(newErrors, IsBlank(description), "description", DescriptionRequired);
      errors := newErrors;
      // `Object.keys(newErrors).length === 0`: the record has no entry.
      ok := newErrors == map[];
    }

    /**
     * Saving: an invalid draft is neither saved nor closed; a valid one is
     * handed on with its rules numbered by position, and the editor closes.
     */
    method HandleSaveTemplate() returns (saved: Option<TemplateFields>, closed: bool)
      modifies this`errors
      ensures errors == DraftErrors(name, description)
      ensures saved.None? <==> errors != map[]
      ensures closed <==> saved.Some?
      ensures saved.Some? ==> saved.value == TemplateFields(name, description, Renumbered(rules))
    {
      var ok := Validate();
      if !ok {
        return None, false;
      }
      saved := Some(TemplateFields(name, description, Renumbered(rules)));
      closed := true;
    }

    /**
     * Committing the rule form: in add mode the rule is appended; in edit mode
     * it replaces the rule at the edited position and the editor returns to
     * add mode.
     */
    method HandleAddRule(rule: RuleFields)
      requires editingRuleIndex.Some? ==> editingRuleIndex.value < |rules|
      modifies this`rules, this`editingRuleIndex
      ensures editingRuleIndex == None
      ensures old(editingRuleIndex).None? ==> rules == old(rules) + [rule]
      ensures old(editingRuleIndex).Some? ==> rules == old(rules)[old(editingRuleIndex).value := rule]
    {
      if editingRuleIndex.Some? {
        var updatedRules := rules;
        updatedRules := updatedRules[editingRuleIndex.value := rule];
        rules := updatedRules;
        editingRuleIndex := None;
      } else {
        rules := rules + [rule];
      }
    }

    method HandleDeleteRule(index: nat)
      modifies this`rules
      ensures rules == RemoveAt(old(rules), index)
    {
      var updatedRules := rules;
      if index < |updatedRules| {
        updatedRules := updatedRules[..index] + updatedRules[index + 1..];
      }
      rules := updatedRules;
    }

    /** Opens the rule form on the rule at `index`. */
    method HandleEditRule(index: nat)
      modifies this`editingRuleIndex
      ensures editingRuleIndex == Some(index)
    {
      editingRuleIndex := Some(index);
    }

    /** Opens the rule form to add a rule. */
    method AddNewRule()
      modifies this`editingRuleIndex
      ensures editingRuleIndex == None
    {
      editingRuleIndex := None;
    }

    /** The rule the rule form opens with: the edited one, or none in add mode. */
    function RuleFormInitialRule(): (r: Option<RuleFields>)
      reads this
      ensures editingRuleIndex.None? ==> r.None?
      ensures editingRuleIndex.Some? && editingRuleIndex.value < |rules| ==> r == Some(rules[editingRuleIndex.value])
    {
      match editingRuleIndex
      case None => None
      case Some(i) => if i < |rules| then Some(rules[i]) else None
    }

    /** The rule form's submit wired to `HandleAddRule`: a rejected rule changes nothing here. */
    method CommitRuleForm(form: RuleEngine.RuleForm)
      requires editingRuleIndex.Some? ==> editingRuleIndex.value < |rules|
      modifies this`rules, this`editingRuleIndex, form`errors
      ensures form.errors == RuleEngine.RuleErrors(form.name, form.selectedMembers, form.conditions)
      ensures form.errors != map[] ==> rules == old(rules) && editingRuleIndex == old(editingRuleIndex)
      ensures form.errors == map[] ==> editingRuleIndex == None
      ensures form.errors == map[] && old(editingRuleIndex).None? ==> rules == old(rules) + [form.Fields()]
      ensures form.errors == map[] && old(editingRuleIndex).Some? ==>
        rules == old(rules)[old(editingRuleIndex).value := form.Fields()]
    {
      var submitted := form.HandleSubmit();
      if submitted.Some? {
        HandleAddRule(submitted.value);
      }
    }
  }

  /**
   * Two pending rules, the first deleted, then saved: the surviving rule is
   * renumbered to id "0", so its persisted identity follows its position.
   */
  lemma DeleteFirstThenRenumber(first: RuleFields, second: RuleFields)
    ensures Renumbered(RemoveAt([first, second], 0)) == [RuleWithId(second, "0")]
  {
    assert RemoveAt([first, second], 0) == [second];
    RenumberedSingle(second);
  }
}
