/**
 * The records shared by the template console: members, rules and templates,
 * and the id-less drafts of rules and templates that the editing forms pass
 * around before an id is attached.
 */
module Types {

  datatype Option<+T> = None | Some(value: T)

  /** A chama member; only `id` and `name` are used by the editing model. */
  datatype Member = Member(id: string, name: string, phone: string, role: string)

  /** The three action kinds a rule can perform. */
  datatype ActionType = Notification | Reminder | Payment

  /**
   * A rule as stored in a saved template. `triggerPeriod` is "daily",
   * "weekly", "monthly" or any custom string; `members` holds member ids.
   */
  datatype Rule = Rule(
    id: string,
    name: string,
    actionType: ActionType,
    triggerPeriod: string,
    members: seq<string>,
    conditions: string)

  /** A rule without its id: what the rule form emits and the draft editor keeps. */
  datatype RuleFields = RuleFields(
    name: string,
    actionType: ActionType,
    triggerPeriod: string,
    members: seq<string>,
    conditions: string)

  datatype ChamaTemplate = ChamaTemplate(
    id: string,
    name: string,
    description: string,
    rules: seq<Rule>)

  /** A template without its id: what the draft editor hands to the store. */
  datatype TemplateFields = TemplateFields(
    name: string,
    description: string,
    rules: seq<Rule>)

  /** `{ ...fields, id }` for a rule. */
  function RuleWithId(f: RuleFields, id: string): Rule {
    Rule(id, f.name, f.actionType, f.triggerPeriod, f.members, f.conditions)
  }

  /** The rule's fields with `id` dropped. */
  function FieldsOf(r: Rule): RuleFields {
    RuleFields(r.name, r.actionType, r.triggerPeriod, r.members, r.conditions)
  }

  /** `{ ...fields, id }` for a template. */
  function TemplateWithId(f: TemplateFields, id: string): ChamaTemplate {
    ChamaTemplate(id, f.name, f.description, f.rules)
  }

  /** Attaching an id and dropping it again are inverse to each other. */
  lemma FieldsOfRuleWithId(f: RuleFields, id: string)
    ensures FieldsOf(RuleWithId(f, id)) == f
    ensures RuleWithId(f, id).id == id
  {
  }

  lemma RuleWithIdFieldsOf(r: Rule)
    ensures RuleWithId(FieldsOf(r), r.id) == r
  {
  }

  /** `if (cond) record[key] = message`, on an error record. */
  function AddIf(record: map<string, string>, cond: bool, key: string, message: string): map<string, string> {
    if cond then record[key := message] else record
  }
}
