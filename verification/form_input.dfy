/**
 `FormInput` and `FormTextarea`: a labelled native control with optional help and
 error text beneath it. The two differ only in the control and the prefix of the
 generated id, so both are one renderer over `Dom.Control`.
 */
module FormInput {
  import opened Js
  import opened Dom

  /** The props after defaults (the five class-name props default to `''`).
      `controlClassName` is `inputClassName` or `textareaClassName`; `typeAttr` is
      the native `type` attribute if one is passed through. */
  datatype Props = Props(
    labelText: Option<string>,
    error: Option<string>,
    helpText: Option<string>,
    containerClassName: string,
    labelClassName: string,
    controlClassName: string,
    errorClassName: string,
    helpClassName: string,
    id: Option<string>,
    name: Option<string>,
    className: Option<string>,
    typeAttr: Option<string>)

  function IdPrefix(kind: Control): string {
    match kind
    case InputControl => "input-"
    case TextareaControl => "textarea-"
  }

  /** `id || name || <prefix><random>`; `generated` stands for the random suffix. */
  function ControlId(kind: Control, p: Props, generated: string): (id: string)
    ensures Truthy(p.id) ==> id == p.id.value
    ensures !Truthy(p.id) && Truthy(p.name) ==> id == p.name.value
    ensures !Truthy(p.id) && !Truthy(p.name) ==> id == IdPrefix(kind) + generated
    ensures id != ""
  {
    Or(p.id, Or(p.name, IdPrefix(kind) + generated))
  }

  /** The control's class: `form-input` followed by the trimmed merge of the
      control class and `className`. */
  function ControlClass(p: Props): (cls: string)
    ensures StartsWith(cls, "form-input ")
    ensures Unpadded(cls[|"form-input "|..])
  {
    var merged := Trim(p.controlClassName + " " + Or(p.className, ""));
    TrimUnpadded(p.controlClassName + " " + Or(p.className, ""));
    var cls := "form-input " + merged;
    assert cls[|"form-input "|..] == merged;
    cls
  }

  function Paragraph(cls: string, text: Option<string>): seq<Node> {
    if Truthy(text) then [El(P, cls, text.value, [])] else []
  }

  /** The help paragraph, then the error paragraph, each iff its text is non-empty. */
  function Notes(p: Props): (r: seq<Node>)
    ensures |r| == (if Truthy(p.helpText) then 1 else 0) + (if Truthy(p.error) then 1 else 0)
    ensures forall k :: 0 <= k < |r| ==> r[k].tag == P
    ensures Truthy(p.helpText) ==> r[0].text == p.helpText.value
    ensures Truthy(p.error) ==> r[|r| - 1].text == p.error.value
  {
    Paragraph("text-sm mt-1 " + p.helpClassName, p.helpText) + Paragraph("text-sm mt-1 " + p.errorClassName, p.error)
  }

  /** The label, iff its text is non-empty, bound to `id`. */
  function LabelPart(p: Props, id: string): (r: seq<Node>)
    ensures |r| == (if Truthy(p.labelText) then 1 else 0)
    ensures r != [] ==> r[0].tag == Label(Some(id)) && r[0].text == p.labelText.value
  {
    if Truthy(p.labelText) then [El(Label(Some(id)), "form-label " + p.labelClassName, p.labelText.value, [])] else []
  }

  /** The rendered group: label (iff non-empty, bound to the control's id), the
      control, then help text and error text, each iff non-empty. */
  function Render(kind: Control, p: Props, generated: string): (n: Node)
    ensures n.tag == Div && n.cls == "form-group " + p.containerClassName
    ensures var c := if Truthy(p.labelText) then 1 else 0;
      && |n.kids| == c + 1 + (if Truthy(p.helpText) then 1 else 0) + (if Truthy(p.error) then 1 else 0)
      && (Truthy(p.labelText) ==>
            n.kids[0].tag == Label(Some(ControlId(kind, p, generated))) && n.kids[0].text == p.labelText.value)
      && n.kids[c].tag == Field(kind, ControlId(kind, p, generated), p.name, p.typeAttr)
      && StartsWith(n.kids[c].cls, "form-input ")
      && (Truthy(p.helpText) ==> n.kids[c + 1].text == p.helpText.value)
      && (Truthy(p.error) ==> n.kids[|n.kids| - 1].text == p.error.value)
  {
    var id := ControlId(kind, p, generated);
    var control := El(Field(kind, id, p.name, p.typeAttr), ControlClass(p), "", []);
    El(Div, "form-group " + p.containerClassName, "", Around(LabelPart(p, id), control, Notes(p)))
  }

  /** The control is the group's only form field: the label and the paragraphs
      around it are not fields. */
  lemma OnlyOneField(kind: Control, p: Props, generated: string)
    ensures var n := Render(kind, p, generated);
      forall k :: 0 <= k < |n.kids| && n.kids[k].tag.Field? ==> k == (if Truthy(p.labelText) then 1 else 0)
  {
  }

  /** One node between two runs of nodes, each keeping its place. */
  function Around(before: seq<Node>, middle: Node, after: seq<Node>): (r: seq<Node>)
    ensures |r| == |before| + 1 + |after|
    ensures r[|before|] == middle
    ensures forall k :: 0 <= k < |before| ==> r[k] == before[k]
    ensures forall k :: |before| < k < |r| ==> r[k] == after[k - |before| - 1]
  {
    before + [middle] + after
  }

  /** `FormInput`. */
  function Input(p: Props, generated: string): Node {
    Render(InputControl, p, generated)
  }

  /** `FormTextarea`. */
  function Textarea(p: Props, generated: string): Node {
    Render(TextareaControl, p, generated)
  }

  /** The label, when shown, names the same id as the control, and that id is never
      empty, whichever of `id`, `name` or the generated fallback it came from. */
  lemma LabelBindsControl(kind: Control, p: Props, generated: string)
    requires Truthy(p.labelText)
    ensures var n := Render(kind, p, generated);
      n.kids[0].tag.htmlFor == Some(n.kids[1].tag.id) && n.kids[1].tag.id != ""
  {
  }

  /** An input and a textarea with the same props differ only in the control kind and,
      when neither `id` nor `name` is given, in the generated id's prefix. */
  lemma TextareaMirrorsInput(p: Props, generated: string)
    ensures var a := Input(p, generated); var b := Textarea(p, generated);
      && |a.kids| == |b.kids| && a.cls == b.cls
      && (forall k :: 0 <= k < |a.kids| && !a.kids[k].tag.Field? && !a.kids[k].tag.Label? ==> a.kids[k] == b.kids[k])
    ensures Truthy(p.id) || Truthy(p.name) ==>
      ControlId(InputControl, p, generated) == ControlId(TextareaControl, p, generated)
  {
  }
}
