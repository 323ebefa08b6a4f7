/**
 The pieces `Form` and `FlexibleForm` render identically: the logo, title and
 subtitle, the success and error alerts, the submit button, the footer and the
 legacy `inputs`/`textareas` fields. Both components write these out in the same
 words; here each is defined once and both renderers use it.
 */
module FormParts {
  import opened Js
  import opened Dom

  // ---------------------------------------------------------------------------
  // Header and alerts

  function LogoPart(showLogo: bool): (r: seq<Node>)
    ensures |r| == (if showLogo then 1 else 0)
  {
    if showLogo then [El(Logo, "flex justify-center", "", [])] else []
  }

  /** A heading-like element shown iff its text is non-empty. */
  function Gated(tag: Tag, cls: string, text: Option<string>): (r: seq<Node>)
    ensures |r| == (if Truthy(text) then 1 else 0)
    ensures r != [] ==> r[0].text == text.value && r[0].tag == tag && r[0].cls == cls
  {
    if Truthy(text) then [El(tag, cls, text.value, [])] else []
  }

  /** An alert box (`alert alert-success` or `alert alert-error`) shown iff the
      message is non-empty. */
  function Alert(kind: string, message: Option<string>): (r: seq<Node>)
    ensures |r| == (if Truthy(message) then 1 else 0)
    ensures r != [] ==> r[0].cls == "alert alert-" + kind && r[0].kids == [El(Span, "", message.value, [])]
  {
    if Truthy(message) then [El(Div, "alert alert-" + kind, "", [El(Span, "", message.value, [])])] else []
  }

  /** The success alert followed by the error alert; both may show at once. */
  function Alerts(success: Option<string>, error: Option<string>): (r: seq<Node>)
    ensures |r| == (if Truthy(success) then 1 else 0) + (if Truthy(error) then 1 else 0)
    ensures Truthy(success) ==> r[0] == Alert("success", success)[0]
    ensures Truthy(error) ==> r[|r| - 1] == Alert("error", error)[0]
  {
    Alert("success", success) + Alert("error", error)
  }

  /** The success alert precedes the error alert, and each appears iff its message is
      non-empty. */
  lemma AlertsOrder(success: Option<string>, error: Option<string>)
    ensures var r := Alerts(success, error);
      && (Truthy(success) ==> r[0].cls == "alert alert-success" && r[0].kids[0].text == success.value)
      && (Truthy(error) ==> r[|r| - 1].cls == "alert alert-error" && r[|r| - 1].kids[0].text == error.value)
      && (r == [] <==> !Truthy(success) && !Truthy(error))
  {
  }

  // ---------------------------------------------------------------------------
  // Submit button

  /** The `submitButton` prop. Every optional key is `None` when absent; a key that
      is present is spread over the button's computed attributes. */
  datatype SubmitButton = SubmitButton(
    labelText: Option<string>,
    loadingLabel: Option<string>,
    isSubmitting: bool,
    disabled: Option<bool>,
    className: Option<string>,
    buttonType: Option<string>)

  /** The button element: `type`, `disabled` and `className` are first computed and
      then overwritten by the same keys of `submitButton` when those are present,
      because `{...submitButton}` comes after them. */
  function SubmitButtonNode(sb: SubmitButton): Node {
    var computedType := Or(sb.buttonType, "submit");
    var computedDisabled := sb.isSubmitting || sb.disabled.GetOr(false);
    var computedClass := "btn btn-primary w-full " + (if sb.isSubmitting then "btn-loading" else "")
                         + " " + Or(sb.className, "");
    var buttonType := if sb.buttonType.Some? then sb.buttonType.value else computedType;
    var disabled := if sb.disabled.Some? then sb.disabled.value else computedDisabled;
    var cls := if sb.className.Some? then sb.className.value else computedClass;
    var content :=
      if sb.isSubmitting then
        if Truthy(sb.loadingLabel) then TextNode(sb.loadingLabel.value)
        else El(Span, "sr-only", "Submitting...", [])
      else TextNode(Or(sb.labelText, "Submit"));
    El(Button(buttonType, disabled, sb.isSubmitting), cls, "", [content])
  }

  /** `renderSubmitButton`: no button without the prop. */
  function SubmitButtonPart(sb: Option<SubmitButton>): (r: seq<Node>)
    ensures |r| == (if sb.Some? then 1 else 0)
    ensures r != [] ==> r[0].tag.Button? && r[0].tag.busy == sb.value.isSubmitting
  {
    if sb.Some? then [SubmitButtonNode(sb.value)] else []
  }

  /** The computed attributes when `submitButton` supplies no `type` or `className`
      of its own: type `submit`, the `btn btn-primary w-full` classes, disabled
      while submitting unless a `disabled` key says otherwise, the loading label or
      the screen-reader "Submitting..." while submitting, otherwise the label or
      "Submit". */
  lemma SubmitButtonComputed(sb: SubmitButton)
    requires sb.buttonType.None? && sb.className.None?
    ensures var n := SubmitButtonNode(sb);
      && n.tag.buttonType == "submit"
      && (n.tag.disabled <==> (if sb.disabled.Some? then sb.disabled.value else sb.isSubmitting))
      && n.tag.busy == sb.isSubmitting
      && StartsWith(n.cls, "btn btn-primary w-full ")
      && (sb.isSubmitting && Truthy(sb.loadingLabel) ==> n.kids == [TextNode(sb.loadingLabel.value)])
      && (sb.isSubmitting && !Truthy(sb.loadingLabel) ==> n.kids == [El(Span, "sr-only", "Submitting...", [])])
      && (!sb.isSubmitting ==> n.kids == [TextNode(if Truthy(sb.labelText) then sb.labelText.value else "Submit")])
  {
  }

  /** The spread wins: a `disabled`, `className` or `type` key in `submitButton`
      replaces the computed attribute, so `{isSubmitting: true, disabled: false}`
      leaves the button enabled and `{className: ''}` drops the `btn` classes. */
  lemma SubmitButtonSpreadOverrides(sb: SubmitButton)
    ensures var n := SubmitButtonNode(sb);
      && (sb.disabled.Some? ==> n.tag.disabled == sb.disabled.value)
      && (sb.disabled.None? ==> n.tag.disabled == sb.isSubmitting)
      && (sb.className.Some? ==> n.cls == sb.className.value)
      && (sb.buttonType.Some? ==> n.tag.buttonType == sb.buttonType.value)
  {
  }

  /** The outer container: header, content area, then the footer part. */
  function Frame(cls: string, header: Node, content: Node, footer: seq<Node>): (n: Node)
    ensures n.cls == cls
    ensures |n.kids| == 2 + |footer|
    ensures n.kids[0] == header && n.kids[1] == content
    ensures |footer| == 1 ==> n.kids[2] == footer[0]
  {
    El(Div, cls, "", [header, content] + footer)
  }

  // ---------------------------------------------------------------------------
  // Footer

  datatype FooterLink = FooterLink(href: string, labelText: string)

  /** `renderFooter`: shown iff there is footer text or a link; a single space
      separates the two only when both are present. */
  function FooterPart(footerText: Option<string>, footerLink: Option<FooterLink>, cls: string): (r: seq<Node>)
    ensures |r| == (if Truthy(footerText) || footerLink.Some? then 1 else 0)
    ensures r != [] ==> r[0].tag == Footer && |r[0].kids| == 1
    ensures r != [] ==> var line := r[0].kids[0].kids;
      && |line| == (if Truthy(footerText) then 1 else 0) + (if footerLink.Some? then 1 else 0)
                   + (if Truthy(footerText) && footerLink.Some? then 1 else 0)
      && (Truthy(footerText) ==> line[0] == TextNode(footerText.value))
      && (Truthy(footerText) && footerLink.Some? ==> line[1] == TextNode(" "))
      && (footerLink.Some? ==> line[|line| - 1].tag == Anchor(footerLink.value.href)
                               && line[|line| - 1].text == footerLink.value.labelText)
  {
    if !Truthy(footerText) && footerLink.None? then []
    else
      var text := if Truthy(footerText) then [TextNode(footerText.value)] else [];
      var space := if Truthy(footerText) && footerLink.Some? then [TextNode(" ")] else [];
      var link := if footerLink.Some?
        then [El(Anchor(footerLink.value.href), "font-medium link-accent", footerLink.value.labelText, [])]
        else [];
      [El(Footer, cls, "", [El(P, "text-sm", "", text + space + link)])]
  }

  // ---------------------------------------------------------------------------
  // Legacy fields

  /** One element of the legacy `inputs` or `textareas` arrays: its `id`, `name`,
      `className` and `type`. Its other attributes are spread onto the control
      untouched, like `type`, and are not modelled. */
  datatype LegacyControl = LegacyControl(id: Option<string>, name: Option<string>, className: Option<string>,
                                         typeAttr: Option<string>)

  function LegacyPrefix(kind: Control): string {
    match kind
    case InputControl => "input-"
    case TextareaControl => "textarea-"
  }

  /** `id || name || "<kind>-" + index`: never empty, the first truthy one of the
      three. */
  function LegacyId(kind: Control, c: LegacyControl, index: nat): (id: string)
    ensures id != ""
    ensures Truthy(c.id) ==> id == c.id.value
    ensures !Truthy(c.id) && Truthy(c.name) ==> id == c.name.value
    ensures !Truthy(c.id) && !Truthy(c.name) ==> id == LegacyPrefix(kind) + Decimal(index)
  {
    Or(c.id, Or(c.name, LegacyPrefix(kind) + Decimal(index)))
  }

  /** Controls with neither id nor name get their position as id, so no two of them
      in one array share an id (or a key). */
  lemma LegacyIdsDistinct(kind: Control, c: LegacyControl, d: LegacyControl, i: nat, j: nat)
    requires !Truthy(c.id) && !Truthy(c.name) && !Truthy(d.id) && !Truthy(d.name)
    ensures LegacyId(kind, c, i) == LegacyId(kind, d, j) <==> i == j
  {
    var p := LegacyPrefix(kind);
    DecimalInjective(i, j);
    if LegacyId(kind, c, i) == LegacyId(kind, d, j) {
      assert Decimal(i) == (p + Decimal(i))[|p|..];
      assert Decimal(j) == (p + Decimal(j))[|p|..];
    }
  }

  function LegacyNode(kind: Control, c: LegacyControl, index: nat): Node {
    var id := LegacyId(kind, c, index);
    Node(Div, Some(LegacyPrefix(kind) + id), "form-group", "",
         [El(Field(kind, id, c.name, c.typeAttr), Or(c.className, "form-input"), "", [])])
  }

  /** `n` is the `form-group` wrapper the legacy branch renders for the control `c`
      at position `index` of its array. */
  predicate IsLegacyGroup(n: Node, kind: Control, c: LegacyControl, index: nat) {
    && n.cls == "form-group"
    && n.key == Some(LegacyPrefix(kind) + LegacyId(kind, c, index))
    && |n.kids| == 1
    && n.kids[0].tag == Field(kind, LegacyId(kind, c, index), c.name, c.typeAttr)
    && n.kids[0].cls == Or(c.className, "form-input")
  }

  function LegacyNodes(kind: Control, cs: seq<LegacyControl>): (r: seq<Node>)
    ensures |r| == |cs|
    ensures forall i :: 0 <= i < |cs| ==> IsLegacyGroup(r[i], kind, cs[i], i)
  {
    seq(|cs|, i requires 0 <= i < |cs| => LegacyNode(kind, cs[i], i))
  }

  /** The legacy `renderFormFields`: nothing when both arrays are absent or empty,
      otherwise one container. */
  function LegacyFields(inputs: seq<LegacyControl>, textareas: seq<LegacyControl>): (r: seq<Node>)
    ensures r == [] <==> inputs == [] && textareas == []
    ensures r != [] ==> |r| == 1 && r[0].cls == "space-y-6"
  {
    if inputs == [] && textareas == [] then []
    else [El(Div, "space-y-6", "", LegacyNodes(InputControl, inputs) + LegacyNodes(TextareaControl, textareas))]
  }

  /** The container holds every input, then every textarea, each in array order. */
  lemma LegacyFieldsInOrder(inputs: seq<LegacyControl>, textareas: seq<LegacyControl>)
    requires inputs != [] || textareas != []
    ensures var kids := LegacyFields(inputs, textareas)[0].kids;
      && |kids| == |inputs| + |textareas|
      && (forall i :: 0 <= i < |inputs| ==> IsLegacyGroup(kids[i], InputControl, inputs[i], i))
      && (forall j :: 0 <= j < |textareas| ==> IsLegacyGroup(kids[|inputs| + j], TextareaControl, textareas[j], j))
  {
    var a := LegacyNodes(InputControl, inputs);
    var b := LegacyNodes(TextareaControl, textareas);
    var kids := LegacyFields(inputs, textareas)[0].kids;
    assert kids == a + b;
    forall i | 0 <= i < |inputs|
      ensures IsLegacyGroup(kids[i], InputControl, inputs[i], i)
    {
      assert kids[i] == a[i];
    }
    forall j | 0 <= j < |textareas|
      ensures IsLegacyGroup(kids[|inputs| + j], TextareaControl, textareas[j], j)
    {
      assert kids[|inputs| + j] == b[j];
    }
  }

  /** Unlike the descriptor keys, legacy keys come from the id alone, so two inputs with
      the same name and no id share a key. */
  lemma LegacyKeysCanCollide(name: string)
    requires name != ""
    ensures var c := LegacyControl(None, Some(name), None, None);
      LegacyNode(InputControl, c, 0).key == LegacyNode(InputControl, c, 1).key
  {
  }
}
