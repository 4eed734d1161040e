/** The templates screen (src/components/templates/TemplatesView.tsx):
    applying a saved style to the store, saving the store's style as a new
    template, the colour swatch of each template, and the selection. */
module TemplatesView {
  import opened Wrappers
  import opened Text
  import opened StyleStore
  import opened Templates

  /** The style a template leaves in the store: nothing changes when its JSON
      does not parse; otherwise each string and object field is taken when
      truthy, and the two booleans whenever they are defined. */
  function TemplateApplied(current: Style, doc: JsonDoc): Style {
    match doc
    case Unparsable => current
    case Parsed(j) =>
      Style(
        IfTruthy(current.dotStyle, j.dotStyle),
        IfTruthy(current.cornerSquareStyle, j.cornerSquareStyle),
        IfTruthy(current.cornerDotStyle, j.cornerDotStyle),
        IfTruthy(current.foreground, j.foreground),
        IfTruthy(current.background, j.background),
        IfDefined(current.transparentBg, j.transparentBg),
        IfDefined(current.useGradient, j.useGradient),
        IfPresent(current.gradient, j.gradient),
        IfPresent(current.logo, j.logo),
        IfTruthy(current.errorCorrection, j.errorCorrection))
  }

  /** Applying what was saved from a style restores every part of it that is
      truthy or boolean, over whatever the store held; a saved empty string
      or unset object leaves the store's value. */
  lemma AppliedRestoresSaved(saved: Style, current: Style)
    ensures var r := TemplateApplied(current, Parsed(Serialize(saved)));
      r.transparentBg == saved.transparentBg && r.useGradient == saved.useGradient &&
      r.dotStyle == (if saved.dotStyle != "" then saved.dotStyle else current.dotStyle) &&
      r.cornerSquareStyle == (if saved.cornerSquareStyle != "" then saved.cornerSquareStyle else current.cornerSquareStyle) &&
      r.cornerDotStyle == (if saved.cornerDotStyle != "" then saved.cornerDotStyle else current.cornerDotStyle) &&
      r.foreground == (if saved.foreground != "" then saved.foreground else current.foreground) &&
      r.background == (if saved.background != "" then saved.background else current.background) &&
      r.errorCorrection == (if saved.errorCorrection != "" then saved.errorCorrection else current.errorCorrection) &&
      r.gradient == (if saved.gradient.Some? then saved.gradient else current.gradient) &&
      r.logo == (if saved.logo.Some? then saved.logo else current.logo)
  {
  }

  /** A style with no empty strings and both objects set is restored exactly. */
  lemma AppliedRoundTrip(saved: Style, current: Style)
    requires saved.dotStyle != "" && saved.cornerSquareStyle != "" && saved.cornerDotStyle != ""
    requires saved.foreground != "" && saved.background != "" && saved.errorCorrection != ""
    requires saved.gradient.Some? && saved.logo.Some?
    ensures TemplateApplied(current, Parsed(Serialize(saved))) == saved
  {
    AppliedRestoresSaved(saved, current);
  }

  /** Applying a style twice is the same as applying it once. */
  lemma AppliedIdempotent(current: Style, doc: JsonDoc)
    ensures TemplateApplied(TemplateApplied(current, doc), doc) == TemplateApplied(current, doc)
  {
  }

  /** The swatch `getStylePreview` draws. */
  datatype Swatch = Swatch(fg: string, bg: string, dotStyle: string)

  function StylePreview(doc: JsonDoc): (p: Swatch)
    ensures doc.Unparsable? ==> p == Swatch("#1a1a2e", "#ffffff", "rounded")
    ensures doc.Parsed? ==> p == Swatch(OrElse(doc.json.foreground, "#1a1a2e"),
                                        OrElse(doc.json.background, "#ffffff"),
                                        OrElse(doc.json.dotStyle, "rounded"))
  {
    match doc
    case Unparsable => Swatch("#1a1a2e", "#ffffff", "rounded")
    case Parsed(j) => Swatch(OrElse(j.foreground, "#1a1a2e"), OrElse(j.background, "#ffffff"), OrElse(j.dotStyle, "rounded"))
  }

  /** The swatch of a template shows the colours and dot style the store had
      when it was saved, each falling back to its default when empty. */
  lemma PreviewOfSaved(s: Style)
    ensures StylePreview(Parsed(Serialize(s))) ==
      Swatch(if s.foreground != "" then s.foreground else "#1a1a2e",
             if s.background != "" then s.background else "#ffffff",
             if s.dotStyle != "" then s.dotStyle else "rounded")
  {
  }

  /** Every swatch colour and style is non-empty. */
  lemma PreviewNonEmpty(doc: JsonDoc)
    ensures StylePreview(doc).fg != "" && StylePreview(doc).bg != "" && StylePreview(doc).dotStyle != ""
  {
  }

  /** The screen's own state, with the hook and the store it works on. */
  class Screen {
    var selected: Option<Template>
    var isCreating: bool
    var newTemplateName: string
    const hook: TemplateList
    const store: QrStore

    constructor(hook0: TemplateList, store0: QrStore)
      ensures hook == hook0 && store == store0
      ensures selected.None? && !isCreating && newTemplateName == ""
    {
      hook, store := hook0, store0;
      selected, isCreating, newTemplateName := None, false, "";
    }

    /** `handleSelectTemplate`. */
    method SelectTemplate(t: Template)
      modifies this`selected, this`isCreating
      ensures selected == Some(t) && !isCreating
    {
      selected := Some(t);
      isCreating := false;
    }

    /** `handleApplyTemplate`: the guarded setter calls one after another. */
    method ApplyTemplate(t: Template)
      modifies store`style
      ensures store.style == TemplateApplied(old(store.style), t.styleJson)
    {
      match t.styleJson {
        case Unparsable =>
        case Parsed(j) =>
          var s := store.style;
          s := s.(dotStyle := IfTruthy(s.dotStyle, j.dotStyle));
          s := s.(cornerSquareStyle := IfTruthy(s.cornerSquareStyle, j.cornerSquareStyle));
          s := s.(cornerDotStyle := IfTruthy(s.cornerDotStyle, j.cornerDotStyle));
          s := s.(foreground := IfTruthy(s.foreground, j.foreground));
          s := s.(background := IfTruthy(s.background, j.background));
          s := s.(transparentBg := IfDefined(s.transparentBg, j.transparentBg));
          s := s.(useGradient := IfDefined(s.useGradient, j.useGradient));
          s := s.(gradient := IfPresent(s.gradient, j.gradient));
          s := s.(logo := IfPresent(s.logo, j.logo));
          s := s.(errorCorrection := IfTruthy(s.errorCorrection, j.errorCorrection));
          store.style := s;
      }
    }

    /** `handleSaveCurrentAsTemplate`: nothing happens for a blank name;
        otherwise the trimmed name and the store's ten style fields are sent,
        and the form is reset once an id (a truthy one) comes back. */
    method SaveCurrentAsTemplate(saved: Invoke<int>, refetch: Invoke<seq<Template>>)
      returns (sent: Option<NewTemplate>)
      modifies hook, this`newTemplateName, this`isCreating
      ensures Trim(old(newTemplateName)) == "" ==>
        sent.None? && hook.templates == old(hook.templates) && newTemplateName == old(newTemplateName) &&
        isCreating == old(isCreating)
      ensures Trim(old(newTemplateName)) != "" ==>
        sent == Some(NewTemplate(Trim(old(newTemplateName)), Parsed(Serialize(store.style))))
      ensures Trim(old(newTemplateName)) != "" && saved.Returned? ==>
        hook.templates == if refetch.Returned? then refetch.value else old(hook.templates)
      ensures Trim(old(newTemplateName)) != "" && saved.Returned? && saved.value != 0 ==>
        newTemplateName == "" && !isCreating
      ensures Trim(old(newTemplateName)) != "" && (saved.Threw? || saved.value == 0) ==>
        newTemplateName == old(newTemplateName) && isCreating == old(isCreating)
    {
      var name := Trim(newTemplateName);
      if name == "" {
        return None;
      }
      var template := NewTemplate(name, Parsed(Serialize(store.style)));
      var id := hook.SaveTemplate(template, saved, refetch);
      if id.Some? && id.value != 0 {
        newTemplateName := "";
        isCreating := false;
      }
      sent := Some(template);
    }

    /** `handleDelete`: after the user confirms, the template is deleted; the
        selection is cleared only when it was the deleted template. */
    method Delete(id: int, confirmed: bool, outcome: Invoke<bool>)
      modifies hook`templates, this`selected
      ensures !confirmed ==> hook.templates == old(hook.templates) && selected == old(selected)
      ensures confirmed ==>
        hook.templates == if outcome == Returned(true) then WithoutId(old(hook.templates), id) else old(hook.templates)
      ensures selected == if confirmed && outcome == Returned(true) && old(selected).Some? && old(selected).value.id == id
                          then None else old(selected)
    {
      if confirmed {
        var success := hook.DeleteTemplate(id, outcome);
        if success && selected.Some? && selected.value.id == id {
          selected := None;
        }
      }
    }

    /** `handleSetDefault`. */
    method SetDefault(id: int, outcome: Invoke<bool>) returns (success: bool)
      modifies hook`templates
      ensures success <==> outcome == Returned(true)
      ensures hook.templates == if success then MarkDefault(old(hook.templates), id) else old(hook.templates)
    {
      success := hook.SetDefaultTemplate(id, outcome);
    }
  }
}
