/** The template list hook (src/hooks/useTemplates.ts): a local copy of the
    saved templates kept in step with the back end's answers. Each `invoke`
    is given as its outcome. */
module Templates {
  import opened Wrappers
  import opened StyleStore
  import opened Lists

  /** `Template`. */
  datatype Template = Template(id: int, name: string, styleJson: JsonDoc, preview: Option<string>,
                               isDefault: bool, createdAt: string)

  /** `NewTemplate`, as the screens send it. */
  datatype NewTemplate = NewTemplate(name: string, styleJson: JsonDoc)

  function TemplateId(t: Template): int {
    t.id
  }

  /** `prev.filter((t) => t.id !== id)`. */
  function WithoutId(ts: seq<Template>, id: int): seq<Template> {
    Without(ts, id, TemplateId)
  }

  /** After a delete no template with that id is left, nothing else is
      dropped, and the rest keep their order. */
  lemma DeleteRemovesId(ts: seq<Template>, id: int)
    ensures forall t :: t in WithoutId(ts, id) <==> t in ts && t.id != id
    ensures forall a, b :: WithoutId(a + b, id) == WithoutId(a, id) + WithoutId(b, id)
  {
    forall t {
      WithoutMembers(ts, id, TemplateId, t);
    }
    forall a, b {
      WithoutAppend(a, b, id, TemplateId);
    }
  }

  /** `prev.map((t) => ({ ...t, isDefault: t.id === id }))`. */
  function MarkDefault(ts: seq<Template>, id: int): (r: seq<Template>)
    ensures |r| == |ts|
  {
    seq(|ts|, i requires 0 <= i < |ts| => ts[i].(isDefault := ts[i].id == id))
  }

  /** Marking keeps the list's length and order and every field but
      `isDefault`, which becomes true exactly for the chosen id; with distinct
      ids at most one template is then the default. */
  lemma MarkDefaultSpec(ts: seq<Template>, id: int)
    ensures |MarkDefault(ts, id)| == |ts|
    ensures forall i :: 0 <= i < |ts| ==>
      MarkDefault(ts, id)[i].isDefault == (ts[i].id == id) &&
      MarkDefault(ts, id)[i].(isDefault := ts[i].isDefault) == ts[i]
    ensures (forall i, j :: 0 <= i < j < |ts| ==> ts[i].id != ts[j].id) ==>
      forall i, j ::
        (0 <= i < |ts| && 0 <= j < |ts| && MarkDefault(ts, id)[i].isDefault && MarkDefault(ts, id)[j].isDefault) ==> i == j
  {
  }

  /** The hook's state. */
  class TemplateList {
    var templates: seq<Template>
    var isLoading: bool

    constructor()
      ensures templates == [] && !isLoading
    {
      templates, isLoading := [], false;
    }

    /** `fetchTemplates`: the list is replaced by what the back end returned
        and kept on an error; loading ends either way. */
    method FetchTemplates(outcome: Invoke<seq<Template>>)
      modifies this
      ensures templates == if outcome.Returned? then outcome.value else old(templates)
      ensures !isLoading
    {
      isLoading := true;
      match outcome {
        case Returned(result) =>
          templates := result;
        case Threw(_) =>
      }
      isLoading := false;
    }

    /** `saveTemplate`: the id of the stored template once the list was
        fetched again, or nothing when the save failed (the list is then left
        alone). A failed refetch does not fail the save. */
    method SaveTemplate(template: NewTemplate, saved: Invoke<int>, refetch: Invoke<seq<Template>>)
      returns (id: Option<int>)
      modifies this
      ensures saved.Threw? ==> id.None? && templates == old(templates) && isLoading == old(isLoading)
      ensures saved.Returned? ==> id == Some(saved.value) && !isLoading
      ensures saved.Returned? ==> templates == if refetch.Returned? then refetch.value else old(templates)
    {
      match saved {
        case Returned(newId) =>
          FetchTemplates(refetch);
          id := Some(newId);
        case Threw(_) =>
          id := None;
      }
    }

    /** `updateTemplate`: the list is fetched again only when the back end
        reports success. */
    method UpdateTemplate(id: int, template: NewTemplate, updated: Invoke<bool>, refetch: Invoke<seq<Template>>)
      returns (success: bool)
      modifies this
      ensures success <==> updated == Returned(true)
      ensures success ==> !isLoading && templates == if refetch.Returned? then refetch.value else old(templates)
      ensures !success ==> templates == old(templates) && isLoading == old(isLoading)
    {
      match updated {
        case Returned(ok) =>
          if ok {
            FetchTemplates(refetch);
          }
          success := ok;
        case Threw(_) =>
          success := false;
      }
    }

    /** `deleteTemplate`. */
    method DeleteTemplate(id: int, outcome: Invoke<bool>) returns (success: bool)
      modifies this`templates
      ensures success <==> outcome == Returned(true)
      ensures templates == if success then WithoutId(old(templates), id) else old(templates)
    {
      success := outcome == Returned(true);
      if success {
        templates := WithoutId(templates, id);
      }
    }

    /** `setDefaultTemplate`. */
    method SetDefaultTemplate(id: int, outcome: Invoke<bool>) returns (success: bool)
      modifies this`templates
      ensures success <==> outcome == Returned(true)
      ensures templates == if success then MarkDefault(old(templates), id) else old(templates)
    {
      success := outcome == Returned(true);
      if success {
        templates := MarkDefault(templates, id);
      }
    }
  }

  /** `getTemplate`: the template the back end found, or nothing. */
  function GetTemplate(outcome: Invoke<Option<Template>>): (r: Option<Template>)
    ensures r.Some? <==> outcome.Returned? && outcome.value.Some?
    ensures r.Some? ==> r == outcome.value
  {
    match outcome
    case Returned(t) => t
    case Threw(_) => None
  }
}
