// Collapsible content: the colour of a panel or button, the `collapse` field built for
// each one, the order in which panels and button collapses are read, and the creation
// of the content.  Parsed HTML is given by what the extraction reads from it.

module CollapseContentCreator {
  import opened Wrappers
  import opened PyStr
  import opened StructuredContent
  import opened Collecting

  // ---------------------------------------------------------------- _get_panel_color

  /** What the colour choice reads: the parent's classes (empty without a parent), the element's classes and `style`. */
  datatype Element = Element(parentClasses: seq<string>, classes: seq<string>, style: string)

  const Colors: set<string> := {"Verde", "Cinza", "Azul", "Vermelho"}

  predicate HasPanelSuccess(e: Element)
  {
    Contains(Lower(Join(e.parentClasses, " ")), "panel-success") || Contains(Lower(Join(e.classes, " ")), "panel-success")
  }

  /** The colour a background style names, if any: grey first, then green, then blue. */
  function StyleColor(style: string): (r: Option<string>)
    ensures r.Some? ==> r.value in Colors && Contains(Lower(style), "background")
  {
    var s := Lower(style);
    if !Contains(s, "background") then None
    else if Contains(s, "gray") || Contains(s, "grey") then Some("Cinza")
    else if Contains(s, "green") || Contains(s, "#eaf2e9;") then Some("Verde")
    else if Contains(s, "blue") || Contains(s, "azul") then Some("Azul")
    else None
  }

  /** The colour Bootstrap button classes name, if any. */
  function ButtonColor(classes: string): (r: Option<string>)
    ensures r.Some? ==> r.value in Colors
  {
    if Contains(classes, "btn-primary") then Some("Azul")
    else if Contains(classes, "btn-success") then Some("Verde")
    else if Contains(classes, "btn-default") || Contains(classes, "btn-secondary") then Some("Cinza")
    else if Contains(classes, "btn-danger") || Contains(classes, "btn-warning") then Some("Vermelho")
    else None
  }

  /** `_get_panel_color`: `panel-success`, then the background style, then button classes, else blue. */
  function PanelColor(e: Element): (r: string)
    ensures r in Colors
  {
    if HasPanelSuccess(e) then "Verde"
    else match StyleColor(e.style)
      case Some(c) => c
      case None =>
        match ButtonColor(Lower(Join(e.classes, " ")))
        case Some(c) => c
        case None => "Azul"
  }

  /**
   * The order of the checks: `panel-success` wins over any style or button class; a
   * style colour wins over button classes; with none of them the colour is blue.
   */
  lemma PanelColorPrecedence(e: Element)
    ensures HasPanelSuccess(e) ==> PanelColor(e) == "Verde"
    ensures !HasPanelSuccess(e) && StyleColor(e.style).Some? ==> PanelColor(e) == StyleColor(e.style).value
    ensures !HasPanelSuccess(e) && StyleColor(e.style).None? && ButtonColor(Lower(Join(e.classes, " "))).Some? ==>
              PanelColor(e) == ButtonColor(Lower(Join(e.classes, " "))).value
    ensures !HasPanelSuccess(e) && StyleColor(e.style).None? && ButtonColor(Lower(Join(e.classes, " "))).None? ==>
              PanelColor(e) == "Azul"
  {
  }

  // ---------------------------------------------------------------- _create_collapse_field

  /** `_create_collapse_field`: title, colour (with its lowercase value) and content, in that order. */
  function CollapseField(title: string, color: string, content: string): (r: ContentField)
    ensures NestedNames(r) == ["collapse_title", "collapse_collor", "collapse_content"]
  {
    ContentField("collapse", [
      NestedField("collapse_title", FieldValue(title, None)),
      NestedField("collapse_collor", FieldValue(color, Some(Lower(color)))),
      NestedField("collapse_content", FieldValue(content, None))])
  }

  /**
   * What a `collapse` field carries, read back by field name: its title, its colour and
   * its content; `None` when a part is missing or the colour value is not the colour in
   * lowercase.
   */
  function CollapseFromField(f: ContentField): Option<(string, string, string)>
  {
    var title := Lookup(f.nested, "collapse_title");
    var color := Lookup(f.nested, "collapse_collor");
    var content := Lookup(f.nested, "collapse_content");
    if f.name == "collapse" && title.Some? && color.Some? && content.Some?
       && color.value.value == Some(Lower(color.value.data))
    then Some((title.value.data, color.value.data, content.value.data))
    else None
  }

  /** The field reads back as the title, colour and content it was built from. */
  lemma CollapseFieldRoundTrip(title: string, color: string, content: string)
    ensures CollapseFromField(CollapseField(title, color, content)) == Some((title, color, content))
  {
    var f := CollapseField(title, color, content);
    var n := f.nested;
    assert "collapse_title"[9] != "collapse_collor"[9] && "collapse_title"[9] != "collapse_content"[9];
    assert "collapse_collor"[12] != "collapse_content"[12];
    assert n[1..][1..] == n[2..];
    assert Lookup(n[2..], "collapse_content") == Some(FieldValue(content, None));
    assert Lookup(n[1..], "collapse_content") == Some(FieldValue(content, None));
    assert Lookup(n[1..], "collapse_collor") == Some(FieldValue(color, Some(Lower(color))));
  }

  const ColorValues: set<string> := {"verde", "cinza", "azul", "vermelho"}

  /** The colour value of a field built from an element is one of the four names in lowercase. */
  lemma CollapseColorValue(title: string, e: Element, content: string)
    ensures var f := CollapseField(title, PanelColor(e), content);
            f.nested[1].fieldValue.value.Some? && f.nested[1].fieldValue.value.value in ColorValues
  {
    var c := PanelColor(e);
    if c == "Verde" {
      LowerIs(c, "verde");
    } else if c == "Cinza" {
      LowerIs(c, "cinza");
    } else if c == "Azul" {
      LowerIs(c, "azul");
    } else {
      LowerIs(c, "vermelho");
    }
  }

  lemma LowerIs(s: string, t: string)
    requires |s| == |t| && forall i :: 0 <= i < |s| ==> LowerChar(s[i]) == t[i]
    ensures Lower(s) == t
  {
  }

  // ---------------------------------------------------------------- titles

  const Arrow: char := '\U{21F5}'
  const DefaultTitle: string := "Se\U{00E7}\U{00E3}o"

  /** A panel or button title: the arrow removed, trimmed, and `Seção` when nothing is left. */
  function CleanTitle(text: string): (r: string)
    ensures r != [] && Arrow !in r
    ensures r[0] !in Whitespace && r[|r| - 1] !in Whitespace
  {
    var removed := Replace(text, [Arrow], []);
    ReplaceRemoves(text, Arrow, []);
    StripSubset(removed, Whitespace, Arrow);
    StripEnds(removed, Whitespace);
    var t := Strip(removed);
    if t == [] then DefaultTitle else t
  }

  /** A title that is already clean is kept as it is. */
  lemma CleanTitleKeepsClean(text: string)
    requires text != [] && Arrow !in text
    requires text[0] !in Whitespace && text[|text| - 1] !in Whitespace
    ensures CleanTitle(text) == text
  {
    ContainsLacking(text, [Arrow], Arrow);
    ReplaceAbsent(text, [Arrow], []);
    StripUnchanged(text, Whitespace);
  }

  /** A title made only of blanks and arrows falls back to `Seção`. */
  lemma BlankTitleIsDefault(text: string)
    requires forall i :: 0 <= i < |text| ==> text[i] in Whitespace || text[i] == Arrow
    ensures CleanTitle(text) == DefaultTitle
  {
    var removed := Replace(text, [Arrow], []);
    ReplaceRemoves(text, Arrow, []);
    forall i | 0 <= i < |removed| ensures removed[i] in Whitespace {
      ReplaceChars(text, [Arrow], [], removed[i]);
    }
    StripEmpty(removed);
  }

  // ---------------------------------------------------------------- extraction

  /**
   * A traditional panel: its `panel-heading` (`None` without one), the text of its title
   * element, and its pruned `panel-body` (`None` without one).
   */
  datatype PanelNode = PanelNode(heading: Option<Element>, titleText: string, body: Option<string>)

  /** `_extract_panel_data`. */
  function PanelData(p: PanelNode): (r: Option<ContentField>)
    ensures r.Some? <==> p.heading.Some? && p.body.Some?
  {
    if p.heading.None? || p.body.None? then None
    else Some(CollapseField(CleanTitle(p.titleText), PanelColor(p.heading.value), p.body.value))
  }

  /** A `button[data-toggle="collapse"]`: the button, its text and its `data-target` (empty without one). */
  datatype Button = Button(element: Element, text: string, target: string)

  /**
   * A button collapse; `targets` gives, for an id, the pruned content of that `div`
   * (its `div.well`, or the whole `div`), `None` when no `div` has the id.
   */
  function ButtonData(b: Button, targets: string -> Option<string>): (r: Option<ContentField>)
    ensures StripChars(b.target, {'#'}) == [] ==> r.None?
  {
    var id := StripChars(b.target, {'#'});
    if id == [] then None
    else
      match targets(id)
      case None => None
      case Some(content) => Some(ButtonCollapseData(b, content))
  }

  /** `_extract_button_collapse_data`: the field of a button and the content of its target. */
  function ButtonCollapseData(b: Button, content: string): (r: ContentField)
    ensures r.name == "collapse" && |r.nested| == 3 && r.nested[0].fieldValue.data != []
    ensures r.nested[1].fieldValue.data in Colors && r.nested[2].fieldValue.data == content
  {
    CollapseField(CleanTitle(b.text), PanelColor(b.element), content)
  }

  /** The fields of the panels that could be read, in order. */
  function PanelFields(panels: seq<PanelNode>): seq<ContentField>
  {
    Collected(panels, PanelData)
  }

  /** The fields of the button collapses whose target exists, in order. */
  function ButtonFields(buttons: seq<Button>, targets: string -> Option<string>): seq<ContentField>
  {
    Collected(buttons, (b: Button) => ButtonData(b, targets))
  }

  /** `process_collapse_content`: the panels first, then the button collapses. */
  method ProcessCollapseContent(panels: seq<PanelNode>, buttons: seq<Button>, targets: string -> Option<string>)
    returns (fields: seq<ContentField>)
    ensures fields == PanelFields(panels) + ButtonFields(buttons, targets)
  {
    fields := CollectPanels(panels);
    var fromButtons := CollectButtons(buttons, targets);
    fields := fields + fromButtons;
  }

  /** The loop over the traditional panels. */
  method CollectPanels(panels: seq<PanelNode>) returns (fields: seq<ContentField>)
    ensures fields == PanelFields(panels)
  {
    fields := [];
    for i := 0 to |panels|
      invariant fields == Collected(panels[..i], PanelData)
    {
      CollectedSnoc(panels, i, PanelData);
      var data := PanelData(panels[i]);
      if data.Some? {
        fields := fields + [data.value];
      }
    }
    assert panels[..|panels|] == panels;
  }

  /** The loop over the collapse buttons: no target, or no `div` with that id, skips the button. */
  method CollectButtons(buttons: seq<Button>, targets: string -> Option<string>) returns (fields: seq<ContentField>)
    ensures fields == ButtonFields(buttons, targets)
  {
    fields := [];
    var readButton := (b: Button) => ButtonData(b, targets);
    for i := 0 to |buttons|
      invariant fields == Collected(buttons[..i], readButton)
    {
      CollectedSnoc(buttons, i, readButton);
      var b := buttons[i];
      var id := StripChars(b.target, {'#'});
      if id == [] {
        continue;
      }
      var target := targets(id);
      if target.None? {
        continue;
      }
      fields := fields + [ButtonCollapseData(b, target.value)];
    }
    assert buttons[..|buttons|] == buttons;
  }

  /**
   * Panels come before buttons: the first fields are those of the panels, each built
   * from one panel, and the rest those of the buttons.
   */
  lemma PanelsFirst(panels: seq<PanelNode>, buttons: seq<Button>, targets: string -> Option<string>, k: nat)
    requires k < |PanelFields(panels) + ButtonFields(buttons, targets)|
    ensures var all := PanelFields(panels) + ButtonFields(buttons, targets);
            if k < |PanelFields(panels)| then exists i :: 0 <= i < |panels| && PanelData(panels[i]) == Some(all[k])
            else exists i :: 0 <= i < |buttons| && ButtonData(buttons[i], targets) == Some(all[k])
  {
    var all := PanelFields(panels) + ButtonFields(buttons, targets);
    if k < |PanelFields(panels)| {
      CollectedFrom(panels, PanelData, k);
    } else {
      var readButton := (b: Button) => ButtonData(b, targets);
      CollectedFrom(buttons, readButton, k - |PanelFields(panels)|);
    }
  }

  /** A button without a target, or whose target does not exist, adds nothing. */
  lemma SkippedButton(panels: seq<PanelNode>, buttons: seq<Button>, b: Button, targets: string -> Option<string>)
    requires StripChars(b.target, {'#'}) == [] || targets(StripChars(b.target, {'#'})).None?
    ensures PanelFields(panels) + ButtonFields(buttons + [b], targets) == PanelFields(panels) + ButtonFields(buttons, targets)
  {
    assert (buttons + [b])[..|buttons|] == buttons;
  }

  /** Nothing is produced exactly when no panel and no button could be read. */
  lemma NoFieldsWhenNothingRead(panels: seq<PanelNode>, buttons: seq<Button>, targets: string -> Option<string>)
    ensures PanelFields(panels) + ButtonFields(buttons, targets) == [] <==>
            (forall i :: 0 <= i < |panels| ==> PanelData(panels[i]).None?)
            && (forall i :: 0 <= i < |buttons| ==> ButtonData(buttons[i], targets).None?)
  {
    CollectedEmpty(panels, PanelData);
    var readButton := (b: Button) => ButtonData(b, targets);
    CollectedEmpty(buttons, readButton);
  }

  // ---------------------------------------------------------------- create_collapse_content

  /** `create_collapse_content`: the content key, or `None` for `False`. */
  function CreateCollapseContent(title: string, panels: seq<PanelNode>, buttons: seq<Button>,
                                 targets: string -> Option<string>, post: Payload -> nat -> PostReply): Option<int>
  {
    CreateContent(Payload(PanelFields(panels) + ButtonFields(buttons, targets), title), post)
  }

  /** With nothing to extract no request is made and the answer is `False`. */
  lemma CreateCollapseWithoutFields(title: string, panels: seq<PanelNode>, buttons: seq<Button>,
                                    targets: string -> Option<string>, post: Payload -> nat -> PostReply)
    requires forall i :: 0 <= i < |panels| ==> PanelData(panels[i]).None?
    requires forall i :: 0 <= i < |buttons| ==> ButtonData(buttons[i], targets).None?
    ensures CreateCollapseContent(title, panels, buttons, targets, post).None?
  {
    NoFieldsWhenNothingRead(panels, buttons, targets);
  }
}
