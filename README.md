# Chama template editing model

A Dafny model of the in-memory editing core of a browser console for chamas
(group savings clubs). A chama template is a named, described, ordered list of
automation rules. Each rule has an action type (notification, reminder or
payment), a trigger period, the ids of the members it targets, and free-text
conditions. The core has three parts, one module each:

- `Templates` (`template_store.dfy`) holds the session's template list and the
  template selected for editing. It offers create, update and delete, and routes
  the editor's save to update when a template is selected and to create otherwise.
  The list operations are the pure functions `Updated` (a map over ids) and
  `Deleted` (a filter on ids). The class `TemplateStore` holds the state that the
  handlers replace.
- `EditModal` (`template_editor.dfy`) is the draft editor. It keeps a pending rule
  list edited by position (append, replace at the edited index, splice). Its
  `editingRuleIndex` chooses between add mode and edit mode. A validator rejects
  a blank name or description. Saving gives every rule its position as its id.
  Member ids are shown as the name of the first member with that id, or as the
  raw id when no member matches.
- `RuleEngine` (`rule_form.dfy`) is the rule form. It holds the field state and
  its defaults, and a validator whose three checks (name, members, conditions)
  each add their own error entry. On submit it emits the fields exactly as typed.

`Types` (`types.dfy`) holds the records. `Text` (`text.dfy`) models JavaScript's
`String.prototype.trim`, using the exact ECMAScript whitespace and line-terminator
set, and `Number.prototype.toString` on array indices. `Text.NatToString` writes plain
decimal digits for every natural number; JavaScript switches to exponent notation
from 10^21 on, far beyond any array index.

Callbacks handed between components are return values here: `onSubmit`, `onSave`
and `onClose`. `None` means the callback was not called. A new template's id comes
from `Date.now()` in the code; here it is the parameter `newId`.

Three details of the code that the model keeps as they are:
- Rule members are an ordered list of ids, not a set.
- A custom trigger period may be any string, the empty one included.
- A new template's id is only as fresh as the clock. Uniqueness of ids is proved
  only under the assumption that `newId` is not already in use
  (`Templates.CreatedKeepsUniqueIds`).

## Model

The functions that define the model have no rows of their own. The lemma rows
about each function stand for it:
- `Templates.Updated`: `UpdatedAt`.
- `Templates.Deleted`: `DeletedCounts` and `DeletedIsSubsequence`.
- `EditModal.StripIds`: `StripIdsAt`.
- `EditModal.Renumbered`: `RenumberedAt`.
- `EditModal.RemoveAt`: `RemoveAtShifts`.
- `RuleEngine.InitialFields`: `InitialFieldsDefaults` and `InitialFieldsOfRule`.
- `RuleEngine.RuleErrors`: `RuleErrorsKeys` and `RuleErrorsEmptyIff`.
- `EditModal.DraftErrors`: `DraftErrorsKeys` and `DraftErrorsEmptyIff`.
- `RuleEngine.PeriodAfterTypingAsWritten`: `CustomPeriodKeepsFirstTextAsWritten`.
- `RuleEngine.PeriodAfterTyping`: `CustomPeriodKeepsLastText`.
- `Text.TrimStart`, `Text.TrimEnd`, `Text.Trim` and `Text.IsBlank`: the `Text` lemmas.

| member | source | states |
|---|---|---|
| `Text.TrimStartDropsWhitespace` | src/components/EditChamaModal.tsx:82 | the result is a suffix of the input; everything cut off is whitespace; the result does not start with whitespace |
| `Text.TrimEndDropsWhitespace` | src/components/EditChamaModal.tsx:82 | the result is a prefix of the input; everything cut off is whitespace; the result does not end with whitespace |
| `Text.TrimShape` | src/components/EditChamaModal.tsx:82-88 | `trim` returns a contiguous slice of its input that neither starts nor ends with whitespace |
| `Text.BlankIffAllWhitespace` | src/components/RuleEngineForm.tsx:48-58 | `!s.trim()` holds exactly when every character of `s` is whitespace |
| `Text.NatToString` | src/components/EditChamaModal.tsx:100 | `index.toString()` is a non-empty string of decimal digits with no leading zero |
| `Text.DigitsValueNatToString` | src/components/EditChamaModal.tsx:100 | reading the decimal digits of `n` back gives `n` |
| `Text.NatToStringInjective` | src/components/EditChamaModal.tsx:100 | distinct positions give distinct id strings |
| `Types.FieldsOfRuleWithId` | src/components/EditChamaModal.tsx:100 | adding an id to rule fields with a spread and then dropping it gives back the fields |
| `Types.RuleWithIdFieldsOf` | src/components/EditChamaModal.tsx:54-60 | dropping a rule's id and adding the same id back gives back the rule |
| `RuleEngine.InitialFieldsDefaults` | src/components/RuleEngineForm.tsx:31-41 | with no initial rule the form starts with name "", action notification, period "daily", no members and conditions "" |
| `RuleEngine.InitialFieldsOfRule` | src/components/RuleEngineForm.tsx:31-41 | editing a rule opens the form on that rule's values, except that an empty period falls back to "daily" |
| `RuleEngine.RuleErrorsKeys` | src/components/RuleEngineForm.tsx:45-62 | the error record has key `name` iff the name is blank, `members` iff no member is selected, and `conditions` iff the conditions are blank; each key carries its message and there are no other keys |
| `RuleEngine.RuleErrorsEmptyIff` | src/components/RuleEngineForm.tsx:45-62 | validation passes iff the name and the conditions each contain a non-whitespace character and at least one member is selected |
| `RuleEngine.EmptyFormReportsEveryError` | src/components/RuleEngineForm.tsx:48-58 | the checks are independent: an empty form reports all three errors at once |
| `RuleEngine.PeriodFixedAsWritten` | src/components/RuleEngineForm.tsx:116-122 | as written, once the period is no longer "custom", no later typing reaches it |
| `RuleEngine.CustomPeriodKeepsFirstTextAsWritten` | src/components/RuleEngineForm.tsx:116-122 | as written, after "custom" is chosen only the first change event on the custom input is stored |
| `RuleEngine.TypingTwentyFourHoursAsWritten` | src/components/RuleEngineForm.tsx:116-122 | as written, typing "24h" one key at a time stores "2" |
| `RuleEngine.CustomPeriodKeepsLastText` | src/components/RuleEngineForm.tsx:116-122 | while the custom input stays shown, the stored period is the last raw text typed, with no format check |
| `RuleEngine.PeriodUnchangedOutsideCustomMode` | src/components/RuleEngineForm.tsx:116-122 | when the custom option is not selected, typing does not change the period |
| `RuleEngine.RuleForm.constructor` | src/components/RuleEngineForm.tsx:31-43 | the form's fields are the initial values of the rule it edits, or the defaults; there are no errors yet |
| `RuleEngine.RuleForm.SetName` | src/components/RuleEngineForm.tsx:83 | the name field becomes the typed text |
| `RuleEngine.RuleForm.SetActionType` | src/components/RuleEngineForm.tsx:93-95 | the action type becomes the chosen one |
| `RuleEngine.RuleForm.SelectTriggerPeriod` | src/components/RuleEngineForm.tsx:105-115 | the period becomes the chosen option; choosing "custom" without typing leaves the period "custom" and shows the custom input |
| `RuleEngine.RuleForm.TypeCustomPeriod` | src/components/RuleEngineForm.tsx:116-122 | corrected behaviour: while "custom" is the chosen option, the raw text becomes the period; otherwise nothing changes |
| `RuleEngine.RuleForm.TypeCustomPeriodAsWritten` | src/components/RuleEngineForm.tsx:116-122 | as written: only while the period is exactly "custom" does the raw text become the period, one step of `PeriodAfterTypingAsWritten`; otherwise nothing changes |
| `RuleEngine.RuleForm.SetSelectedMembers` | src/components/RuleEngineForm.tsx:129 | the selection becomes the checked ids |
| `RuleEngine.RuleForm.SetConditions` | src/components/RuleEngineForm.tsx:146 | the conditions become the typed text |
| `RuleEngine.RuleForm.Validate` | src/components/RuleEngineForm.tsx:45-62 | the error record is rebuilt from the current fields, and the result is true iff the record is empty |
| `RuleEngine.RuleForm.HandleSubmit` | src/components/RuleEngineForm.tsx:64-74 | an invalid form emits nothing; a valid one emits its name, action type, period, members and conditions unchanged and untrimmed |
| `EditModal.DraftErrorsKeys` | src/components/EditChamaModal.tsx:79-92 | the error record has key `name` iff the name is blank and `description` iff the description is blank, each with its message, and no other key |
| `EditModal.DraftErrorsEmptyIff` | src/components/EditChamaModal.tsx:79-92 | a draft validates iff its name and its description each contain a non-whitespace character |
| `EditModal.StripIdsAt` | src/components/EditChamaModal.tsx:53-61 | the initial pending list has the template's length, and entry i is rule i with its id dropped and every other field kept |
| `EditModal.NumberedFromAt` | src/components/EditChamaModal.tsx:100 | numbering from `start` keeps the length, and entry i is pending rule i with id `(start + i).toString()` |
| `EditModal.RenumberedAt` | src/components/EditChamaModal.tsx:100 | the saved rules have the pending list's length; rule i has id `i.toString()` and all other fields of pending rule i |
| `EditModal.RenumberedSingle` | src/components/EditChamaModal.tsx:100 | a single pending rule is saved with id "0" |
| `EditModal.RenumberedIdsDistinct` | src/components/EditChamaModal.tsx:100 | the saved rule ids are pairwise distinct |
| `EditModal.StripIdsRenumbered` | src/components/EditChamaModal.tsx:54-60 | dropping the ids of the saved rules gives back the pending list, so reopening a saved template in a freshly mounted editor restores its draft |
| `EditModal.RenumberedStripIds` | src/components/EditChamaModal.tsx:53-61 | a saved template whose rule ids are their positions, reopened in a freshly mounted editor and saved untouched, gets back exactly the same rules |
| `EditModal.RemoveAtShifts` | src/components/EditChamaModal.tsx:120-124 | deleting at an in-bounds index drops exactly that rule: the length falls by one, earlier rules stay in place, later ones shift left by one, and the multiset loses just that rule |
| `EditModal.DeleteFirstThenRenumber` | src/components/EditChamaModal.tsx:120-124 | deleting the first of two pending rules and then saving gives the remaining rule the id "0": ids follow positions, not the order of creation |
| `EditModal.FindMember` | src/components/EditChamaModal.tsx:207-209 | the result is none iff no member has the id; otherwise it is the first member with that id |
| `EditModal.DisplayName` | src/components/EditChamaModal.tsx:205-212 | a member id is shown as the name of the first member with that id, or as the id itself when none matches |
| `EditModal.MemberNames` | src/components/EditChamaModal.tsx:205-211 | the members line shows one entry per id of the rule, in order, each as `DisplayName` shows it |
| `EditModal.TemplateEditor.constructor` | src/components/EditChamaModal.tsx:49-64 | the draft starts from the initial template's name, description and id-less rules, or from empty values; there are no errors and the editor is in add mode |
| `EditModal.TemplateEditor.SetName` | src/components/EditChamaModal.tsx:151 | the name becomes the typed text |
| `EditModal.TemplateEditor.SetDescription` | src/components/EditChamaModal.tsx:161 | the description becomes the typed text |
| `EditModal.TemplateEditor.Validate` | src/components/EditChamaModal.tsx:79-92 | the error record is rebuilt from the name and description, and the result is true iff the record is empty |
| `EditModal.TemplateEditor.HandleSaveTemplate` | src/components/EditChamaModal.tsx:94-104 | an invalid draft is neither saved nor closed; a valid one is saved with its name, description and renumbered rules, and the editor closes |
| `EditModal.TemplateEditor.HandleAddRule` | src/components/EditChamaModal.tsx:106-118 | in add mode the rule is appended; in edit mode only the edited position is replaced; either way the editor ends in add mode |
| `EditModal.TemplateEditor.HandleDeleteRule` | src/components/EditChamaModal.tsx:120-124 | the pending list loses the rule at the index, and is unchanged when the index is past the end |
| `EditModal.TemplateEditor.HandleEditRule` | src/components/EditChamaModal.tsx:126-129 | the editor enters edit mode at the index |
| `EditModal.TemplateEditor.AddNewRule` | src/components/EditChamaModal.tsx:131-134 | the editor enters add mode |
| `EditModal.TemplateEditor.RuleFormInitialRule` | src/components/EditChamaModal.tsx:269-271 | the rule form opens on the edited rule in edit mode, and on no rule in add mode |
| `EditModal.TemplateEditor.CommitRuleForm` | src/components/EditChamaModal.tsx:265-266 | a rule the form rejects leaves the pending list and the mode unchanged; an accepted rule is appended or replaces the edited position, and the editor is then in add mode |
| `Templates.UpdatedAt` | src/components/ChamaTemplate.tsx:98-102 | update keeps the length; every template with the selected id becomes the draft's fields under that same id, and every other template is unchanged |
| `Templates.UpdatedAbsentUnchanged` | src/components/ChamaTemplate.tsx:98-102 | updating an id that no template has leaves the list unchanged |
| `Templates.UpdatedKeepsIds` | src/components/ChamaTemplate.tsx:98-102 | update leaves every id in place, so unique ids stay unique |
| `Templates.DeletedShrinks` | src/components/ChamaTemplate.tsx:114 | delete never grows the list, and afterwards no template has the id |
| `Templates.DeletedCounts` | src/components/ChamaTemplate.tsx:114 | each template whose id differs is kept exactly as often as before, and none with the id is kept |
| `Templates.DeletedIsSubsequence` | src/components/ChamaTemplate.tsx:114 | the kept templates stay in their original order |
| `Templates.DeletedFromOriginal` | src/components/ChamaTemplate.tsx:114 | every template left after a delete was in the list before |
| `Templates.DeletedAbsentUnchanged` | src/components/ChamaTemplate.tsx:114 | deleting an id that no template has leaves the list unchanged |
| `Templates.DeletedRemovesOne` | src/components/ChamaTemplate.tsx:114 | with unique ids, deleting an id that is present removes exactly one template |
| `Templates.DeletedKeepsUniqueIds` | src/components/ChamaTemplate.tsx:114 | delete keeps ids unique |
| `Templates.CreatedKeepsUniqueIds` | src/components/ChamaTemplate.tsx:79-84 | appending under an id not in use keeps ids unique |
| `Templates.TemplateStore.constructor` | src/components/ChamaTemplate.tsx:24-26 | the store starts with no templates and no selection |
| `Templates.TemplateStore.HandleCreateTemplate` | src/components/ChamaTemplate.tsx:78-91 | exactly one template is appended; it has the draft's name, description and rules under the new id, and every earlier template keeps its value and position |
| `Templates.TemplateStore.HandleUpdateTemplate` | src/components/ChamaTemplate.tsx:93-111 | with no selection the list is unchanged; otherwise it becomes `Updated` on the selected id; the length is kept |
| `Templates.TemplateStore.HandleDeleteTemplate` | src/components/ChamaTemplate.tsx:113-121 | the list becomes `Deleted` on the id; it does not grow, and no template with the id remains |
| `Templates.TemplateStore.HandleEditClick` | src/components/ChamaTemplate.tsx:123-126 | the clicked template becomes the selection |
| `Templates.TemplateStore.HandleAddNew` | src/components/ChamaTemplate.tsx:128-131 | the selection is reset to none |
| `Templates.TemplateStore.HandleModalClose` | src/components/ChamaTemplate.tsx:133-136 | the selection is reset to none |
| `Templates.TemplateStore.HandleSave` | src/components/ChamaTemplate.tsx:199 | a save goes to update when a template is selected and to create otherwise |
| `Templates.TemplateStore.SaveFromEditor` | src/components/ChamaTemplate.tsx:196-201 | an invalid draft changes neither the templates nor the selection; a valid draft is updated into the selected template or appended as a new one, and the close resets the selection |

## Left out

- Rendering is not modelled: the Chakra components, accordions, tag colours, the
  `", "` join of the member names, and the toasts sent after create, update and
  delete.
- The modal open and closed state from `useDisclosure` is not modelled. It is
  library state; only the selection and `editingRuleIndex` decide behaviour.
- `Date.now().toString()` reads the clock, so it becomes the `newId` parameter of
  create.
- The hard-coded sample templates and the mock member list are sample data. The
  member list is a parameter of the lookup.
- React reads a `useState` initial value only on mount, and the draft editor stays
  mounted between openings. So in the source, reopening the editor on another
  template keeps the previous draft. The editor's constructor models a fresh
  mount only.
- `Partial<Rule>` and `Partial<ChamaTemplate>` props with some fields missing are
  not modelled. The only callers pass a whole record or `undefined`, which is
  modelled as `Some` or `None`.
- EditModal.TemplateEditor.HandleAddRule: requires an in-bounds edit index. An
  index past the end would make JavaScript grow the array with holes. The source
  only enters edit mode from a rendered row.
- EditModal.TemplateEditor.CommitRuleForm: requires an in-bounds edit index, for
  the same reason as `HandleAddRule`.
- RuleEngine.RuleForm.TypeCustomPeriod: follows the corrected design, in which the
  custom input stays shown while `customMode` holds. The source shows the input
  only while the period is exactly "custom". After "custom", "2", "24" this member
  stores "24", where the source keeps "2". The as-written behaviour is
  `RuleEngine.RuleForm.TypeCustomPeriodAsWritten` and `PeriodAfterTypingAsWritten`.
- RuleEngine.RuleForm.SelectTriggerPeriod: requires one of the select's four
  option values, since the select emits nothing else.
- How the select displays a period that is not one of its options is rendering
  and is not modelled.
- The `fetch` calls in `src/components/Chama.tsx` and `src/components/ChamaList.tsx`
  are network input and output. The blank-field guard in `Chama.tsx` is the same
  trim predicate modelled in `Text`. `src/App.tsx` only arranges tabs.
- The validators test `Object.keys(newErrors).length === 0` as "the record is the
  empty map". These are the same condition.

## Findings

| source | as written | input that shows it | evidently intended | confidence | as-written member | corrected member |
|---|---|---|---|---|---|---|
| src/components/RuleEngineForm.tsx:116-122 | the custom-period input is rendered only while `triggerPeriod === 'custom'`; its first change event replaces "custom" with the typed text, so the input unmounts and later keystrokes are lost | choose "Custom Hours", then type `2`, `4`, `h` one key at a time: the stored period is "2" | the input stays shown while "custom" is the chosen option, and the stored period is the full text typed ("24h") | medium, not executed | `RuleEngine.CustomPeriodKeepsFirstTextAsWritten` | `RuleEngine.CustomPeriodKeepsLastText` |

The corrected behaviour keeps a separate `customMode` flag, set when "custom" is
chosen in the select. `RuleEngine.RuleForm.TypeCustomPeriod` uses it;
`RuleEngine.RuleForm.TypeCustomPeriodAsWritten` is the same event as written.
