/**
 * The template collection: the session's list of templates, the template
 * selected for editing, and the create, update and delete operations the
 * draft editor's save is routed to.
 */
module Templates {
  import opened Types
  import EditModal

  /** No two templates share an id. */
  predicate UniqueIds(ts: seq<ChamaTemplate>) {
    forall i, j :: 0 <= i < j < |ts| ==> ts[i].id != ts[j].id
  }

  /** Some template has the given id. */
  predicate HasId(ts: seq<ChamaTemplate>, id: string) {
    exists i :: 0 <= i < |ts| && ts[i].id == id
  }

  /** `a` is `b` with some elements left out, the rest in their original order. */
  predicate IsSubsequence<T(==)>(a: seq<T>, b: seq<T>)
    decreases |b|
  {
    if a == [] then true
    else if b == [] then false
    else (a[0] == b[0] && IsSubsequence(a[1..], b[1..])) || IsSubsequence(a, b[1..])
  }

  /**
   * `templates.map(t => t.id === selectedId ? { ...draft, id: selectedId } : t)`.
   */
  function Updated(ts: seq<ChamaTemplate>, selectedId: string, draft: TemplateFields): seq<ChamaTemplate> {
    if ts == [] then []
    else [if ts[0].id == selectedId then TemplateWithId(draft, selectedId) else ts[0]]
         + Updated(ts[1..], selectedId, draft)
  }

  /**
   * Update keeps the length; every template with the selected id becomes the
   * draft under that same id, every other template is left as it was.
   */
  lemma {:induction false} UpdatedAt(ts: seq<ChamaTemplate>, selectedId: string, draft: TemplateFields)
    ensures |Updated(ts, selectedId, draft)| == |ts|
    ensures forall i :: 0 <= i < |ts| ==>
      Updated(ts, selectedId, draft)[i] == if ts[i].id == selectedId then TemplateWithId(draft, selectedId) else ts[i]
  {
    if ts != [] {
      UpdatedAt(ts[1..], selectedId, draft);
      var r := Updated(ts, selectedId, draft);
      forall i | 0 <= i < |ts|
        ensures r[i] == if ts[i].id == selectedId then TemplateWithId(draft, selectedId) else ts[i]
      {
        if i > 0 {
          assert r[i] == Updated(ts[1..], selectedId, draft)[i - 1];
        }
      }
    }
  }

  /** Updating an id no template has changes nothing. */
  lemma UpdatedAbsentUnchanged(ts: seq<ChamaTemplate>, selectedId: string, draft: TemplateFields)
    requires !HasId(ts, selectedId)
    ensures Updated(ts, selectedId, draft) == ts
  {
    UpdatedAt(ts, selectedId, draft);
  }

  /** Update leaves every id where it was, so it keeps ids unique. */
  lemma UpdatedKeepsIds(ts: seq<ChamaTemplate>, selectedId: string, draft: TemplateFields)
    ensures |Updated(ts, selectedId, draft)| == |ts|
    ensures forall i :: 0 <= i < |ts| ==> Updated(ts, selectedId, draft)[i].id == ts[i].id
    ensures UniqueIds(ts) ==> UniqueIds(Updated(ts, selectedId, draft))
  {
    UpdatedAt(ts, selectedId, draft);
  }

  /** `templates.filter(t => t.id !== id)`. */
  function Deleted(ts: seq<ChamaTemplate>, id: string): seq<ChamaTemplate> {
    if ts == [] then []
    else (if ts[0].id != id then [ts[0]] else []) + Deleted(ts[1..], id)
  }

  /** Delete never grows the list, and no template with the id is left. */
  lemma {:induction false} DeletedShrinks(ts: seq<ChamaTemplate>, id: string)
    ensures |Deleted(ts, id)| <= |ts|
    ensures forall k :: 0 <= k < |Deleted(ts, id)| ==> Deleted(ts, id)[k].id != id
  {
    if ts != [] {
      DeletedShrinks(ts[1..], id);
    }
  }

  /**
   * Delete keeps exactly the templates whose id differs, each as often as
   * before, and drops every template with the id.
   */
  lemma {:induction false} DeletedCounts(ts: seq<ChamaTemplate>, id: string)
    ensures forall t :: multiset(Deleted(ts, id))[t] == if t.id == id then 0 else multiset(ts)[t]
  {
    if ts != [] {
      DeletedCounts(ts[1..], id);
      assert ts == [ts[0]] + ts[1..];
    }
  }

  /** Delete keeps the surviving templates in their original order. */
  lemma {:induction false} DeletedIsSubsequence(ts: seq<ChamaTemplate>, id: string)
    ensures IsSubsequence(Deleted(ts, id), ts)
  {
    if ts != [] {
      var rest := Deleted(ts[1..], id);
      DeletedIsSubsequence(ts[1..], id);
      if ts[0].id != id {
        assert Deleted(ts, id) == [ts[0]] + rest;
        assert ([ts[0]] + rest)[1..] == rest;
      } else {
        assert Deleted(ts, id) == rest;
        SubsequenceOfTail(rest, ts);
      }
    }
  }

  lemma SubsequenceOfTail<T>(a: seq<T>, b: seq<T>)
    requires b != [] && IsSubsequence(a, b[1..])
    ensures IsSubsequence(a, b)
  {
  }

  /** Every template left by a delete was in the list before. */
  lemma {:induction false} DeletedFromOriginal(ts: seq<ChamaTemplate>, id: string)
    ensures forall t :: t in Deleted(ts, id) ==> t in ts
  {
    if ts != [] {
      DeletedFromOriginal(ts[1..], id);
    }
  }

  /** Deleting an id no template has changes nothing. */
  lemma {:induction false} DeletedAbsentUnchanged(ts: seq<ChamaTemplate>, id: string)
    requires !HasId(ts, id)
    ensures Deleted(ts, id) == ts
  {
    if ts != [] {
      assert !HasId(ts[1..], id);
      DeletedAbsentUnchanged(ts[1..], id);
    }
  }

  /** A suffix of a list with unique ids has unique ids. */
  lemma TailUniqueIds(ts: seq<ChamaTemplate>)
    requires ts != [] && UniqueIds(ts)
    ensures UniqueIds(ts[1..])
  {
    forall i, j | 0 <= i < j < |ts[1..]| ensures ts[1..][i].id != ts[1..][j].id {
      assert ts[1..][i] == ts[i + 1] && ts[1..][j] == ts[j + 1];
    }
  }

  /** With unique ids, deleting an id that is present removes exactly one template. */
  lemma {:induction false} DeletedRemovesOne(ts: seq<ChamaTemplate>, id: string)
    requires UniqueIds(ts) && HasId(ts, id)
    ensures |Deleted(ts, id)| == |ts| - 1
  {
    TailUniqueIds(ts);
    if ts[0].id == id {
      assert !HasId(ts[1..], id);
      DeletedAbsentUnchanged(ts[1..], id);
    } else {
      var i :| 0 <= i < |ts| && ts[i].id == id;
      assert ts[1..][i - 1].id == id;
      DeletedRemovesOne(ts[1..], id);
    }
  }

  /** Delete keeps ids unique. */
  lemma {:induction false} DeletedKeepsUniqueIds(ts: seq<ChamaTemplate>, id: string)
    requires UniqueIds(ts)
    ensures UniqueIds(Deleted(ts, id))
  {
    if ts != [] {
      var rest := Deleted(ts[1..], id);
      TailUniqueIds(ts);
      DeletedKeepsUniqueIds(ts[1..], id);
      if ts[0].id != id {
        DeletedFromOriginal(ts[1..], id);
        var r := [ts[0]] + rest;
        assert Deleted(ts, id) == r;
        forall i, j | 0 <= i < j < |r| ensures r[i].id != r[j].id {
          if i == 0 {
            var t := rest[j - 1];
            assert t in ts[1..];
            var k :| 0 <= k < |ts[1..]| && ts[1..][k] == t;
            assert ts[k + 1] == t;
          } else {
            assert r[i] == rest[i - 1] && r[j] == rest[j - 1];
          }
        }
      }
    }
  }

  /** Appending a template under an id no template has keeps ids unique. */
  lemma CreatedKeepsUniqueIds(ts: seq<ChamaTemplate>, draft: TemplateFields, newId: string)
    requires UniqueIds(ts) && !HasId(ts, newId)
    ensures UniqueIds(ts + [TemplateWithId(draft, newId)])
  {
    var r := ts + [TemplateWithId(draft, newId)];
    forall i, j | 0 <= i < j < |r| ensures r[i].id != r[j].id {
      if j == |ts| {
        assert r[i] == ts[i];
      }
    }
  }

  /** The session's template collection and the template chosen for editing. */
  class TemplateStore {
    var templates: seq<ChamaTemplate>
    /** The template being edited; `None` while the editor creates a new one. */
    var selected: Option<ChamaTemplate>

    constructor ()
      ensures templates == [] && selected == None
    {
      templates := [];
      selected := None;
    }

    /**
     * Appends the draft as a new template under `newId` (the source takes
     * the current time in milliseconds); every earlier template stays put.
     */
    method HandleCreateTemplate(draft: TemplateFields, newId: string)
      modifies this`templates
      ensures templates == old(templates) + [TemplateWithId(draft, newId)]
    {
      var template := TemplateWithId(draft, newId);
      templates := templates + [template];
    }

    /** Replaces the selected template's fields, keeping its id; without a selection, does nothing. */
    method HandleUpdateTemplate(draft: TemplateFields)
      modifies this`templates
      ensures selected.None? ==> templates == old(templates)
      ensures selected.Some? ==> templates == Updated(old(templates), selected.value.id, draft)
      ensures |templates| == |old(templates)|
    {
      if selected.None? {
        return;
      }
      UpdatedAt(templates, selected.value.id, draft);
      templates := Updated(templates, selected.value.id, draft);
    }

    method HandleDeleteTemplate(id: string)
      modifies this`templates
      ensures templates == Deleted(old(templates), id)
      ensures |templates| <= |old(templates)|
      ensures forall k :: 0 <= k < |templates| ==> templates[k].id != id
    {
      DeletedShrinks(templates, id);
      templates := Deleted(templates, id);
    }

    method HandleEditClick(template: ChamaTemplate)
      modifies this`selected
      ensures selected == Some(template)
    {
      selected := Some(template);
    }

    method HandleAddNew()
      modifies this`selected
      ensures selected == None
    {
      selected := None;
    }

    method HandleModalClose()
      modifies this`selected
      ensures selected == None
    {
      selected := None;
    }

    /** The editor's save callback: an update when a template is selected, a create otherwise. */
    method HandleSave(draft: TemplateFields, newId: string)
      modifies this`templates
      ensures selected.Some? ==> templates == Updated(old(templates), selected.value.id, draft)
      ensures selected.None? ==> templates == old(templates) + [TemplateWithId(draft, newId)]
    {
      if selected.Some? {
        HandleUpdateTemplate(draft);
      } else {
        HandleCreateTemplate(draft, newId);
      }
    }

    /**
     * The editor's save button as wired to this collection: an invalid draft
     * changes neither the templates nor the selection; a valid one is saved
     * through `HandleSave` and the editor's close resets the selection.
     */
    method SaveFromEditor(editor: EditModal.TemplateEditor, newId: string)
      modifies this`templates, this`selected, editor`errors
      ensures editor.errors == EditModal.DraftErrors(editor.name, editor.description)
      ensures editor.errors != map[] ==> templates == old(templates) && selected == old(selected)
      ensures editor.errors == map[] ==> selected == None
      ensures editor.errors == map[] && old(selected).Some? ==>
        templates == Updated(old(templates), old(selected).value.id,
                             TemplateFields(editor.name, editor.description, EditModal.Renumbered(editor.rules)))
      ensures editor.errors == map[] && old(selected).None? ==>
        templates == old(templates) + [ChamaTemplate(newId, editor.name, editor.description,
                                                     EditModal.Renumbered(editor.rules))]
    {
      var saved, closed := editor.HandleSaveTemplate();
      if saved.Some? {
        HandleSave(saved.value, newId);
      }
      if closed {
        HandleModalClose();
      }
    }
  }
}
