/**
 `FlexibleForm`: a header (logo, title, subtitle), the alerts, the fields and the
 submit button inside a `<form>` or a plain container, and a footer. Fields come
 from the `fields` descriptors when there are any, otherwise from the legacy
 `inputs`/`textareas` arrays.
 */
module FlexibleForm {
  import opened Js
  import opened Dom
  import opened FormParts
  import InlineEdit
  import FormInput

  /** One entry of `fields`, discriminated by its `type`. An entry whose `type` is
      none of `inline`, `input`, `textarea` is `OtherField`. The optional keys are
      `None` when absent. */
  datatype Field =
    | InlineField(
        name: string,
        value: string,
        onChange: Handler,
        onSave: Handler,
        placeholder: Option<string>,
        multiline: Option<bool>,
        className: Option<string>,
        titleClassName: Option<string>,
        contentClassName: Option<string>,
        labelText: Option<string>,
        helpText: Option<string>,
        error: Option<string>)
    | InputField(name: string, attrs: FormInput.Props)
    | TextareaField(name: string, attrs: FormInput.Props)
    | OtherField(name: string, kind: string)

  /** The props after defaults: `showLogo` defaults to true, `fields` and the legacy
      arrays to empty, `layout` to `card`, the four layout class names to `''`. */
  datatype Props = Props(
    title: Option<string>,
    subtitle: Option<string>,
    showLogo: bool,
    footerText: Option<string>,
    footerLink: Option<FooterLink>,
    error: Option<string>,
    success: Option<string>,
    onSubmit: Option<Handler>,
    formClassName: Option<string>,
    fields: seq<Field>,
    submitButton: Option<SubmitButton>,
    layout: string,
    containerClassName: string,
    headerClassName: string,
    contentClassName: string,
    footerClassName: string,
    inputs: seq<LegacyControl>,
    textareas: seq<LegacyControl>)

  // ---------------------------------------------------------------------------
  // Layout class tables

  function ContainerClasses(layout: string, extra: string): string {
    if layout == "document" then "note-container " + extra
    else if layout == "minimal" then "w-full max-w-md " + extra
    else "card w-full max-w-md animate-slide-in " + extra
  }

  function ContentClasses(layout: string, extra: string): string {
    if layout == "document" then "note-document " + extra
    else "space-y-6 " + extra
  }

  function HeaderClasses(layout: string, extra: string): string {
    if layout == "document" then "mb-10 " + extra
    else if layout == "minimal" then "mb-6 " + extra
    else "text-center mb-10 " + extra
  }

  function TitleClass(layout: string): string {
    if layout == "document" then "note-title" else "mt-6 text-2xl font-semibold"
  }

  function SubtitleClass(layout: string): string {
    if layout == "document" then "note-meta" else "mt-2 text-sm"
  }

  /** Every layout other than `document` and `minimal` is styled as `card`. */
  lemma UnknownLayoutIsCard(layout: string, container: string, header: string, content: string)
    requires layout != "document" && layout != "minimal"
    ensures ContainerClasses(layout, container) == ContainerClasses("card", container)
    ensures HeaderClasses(layout, header) == HeaderClasses("card", header)
    ensures ContentClasses(layout, content) == ContentClasses("card", content)
    ensures TitleClass(layout) == TitleClass("card") && SubtitleClass(layout) == SubtitleClass("card")
  {
  }

  /** The document classes for title and subtitle are used exactly for the
      `document` layout, and the three layouts have three different containers. */
  lemma DocumentHeadings(layout: string)
    ensures TitleClass(layout) == "note-title" <==> layout == "document"
    ensures SubtitleClass(layout) == "note-meta" <==> layout == "document"
    ensures ContainerClasses("document", "") != ContainerClasses("card", "")
    ensures ContainerClasses("minimal", "") != ContainerClasses("card", "")
    ensures ContainerClasses("minimal", "") != ContainerClasses("document", "")
  {
    assert ContainerClasses("document", "")[0] == 'n';
    assert ContainerClasses("minimal", "")[0] == 'w';
    assert ContainerClasses("card", "")[0] == 'c';
  }

  // ---------------------------------------------------------------------------
  // Field keys

  /** `field-${name}-${index}`. */
  function FieldKey(name: string, index: nat): (k: string)
    ensures StartsWith(k, "field-")
  {
    "field-" + name + "-" + Decimal(index)
  }

  predicate IsDigit(c: char) {
    '0' <= c <= '9'
  }

  /** The length of the run of digits that ends `s`. */
  function TrailingDigits(s: string): nat
    decreases |s|
  {
    if s == [] || !IsDigit(s[|s| - 1]) then 0 else 1 + TrailingDigits(s[..|s| - 1])
  }

  /** Digits appended after a hyphen are exactly the trailing digit run. */
  lemma {:induction false} TrailingDigitsAfterHyphen(p: string, d: string)
    requires |p| > 0 && p[|p| - 1] == '-'
    requires forall k :: 0 <= k < |d| ==> IsDigit(d[k])
    ensures TrailingDigits(p + d) == |d|
    decreases |d|
  {
    if d == [] {
      assert p + d == p;
    } else {
      var d' := d[..|d| - 1];
      assert (p + d)[..|p + d| - 1] == p + d';
      TrailingDigitsAfterHyphen(p, d');
    }
  }

  /** Keys at different positions differ even when the names are equal, or when one
      name ends in what looks like `-<digits>`: the index follows the last hyphen and
      has no hyphen of its own. */
  lemma FieldKeysDistinct(n1: string, i: nat, n2: string, j: nat)
    ensures FieldKey(n1, i) == FieldKey(n2, j) <==> n1 == n2 && i == j
  {
    var d1, d2 := Decimal(i), Decimal(j);
    var p1, p2 := "field-" + n1 + "-", "field-" + n2 + "-";
    assert FieldKey(n1, i) == p1 + d1 && FieldKey(n2, j) == p2 + d2;
    if p1 + d1 == p2 + d2 {
      TrailingDigitsAfterHyphen(p1, d1);
      TrailingDigitsAfterHyphen(p2, d2);
      assert d1 == (p1 + d1)[|p1|..] == (p2 + d2)[|p2|..] == d2;
      DecimalInjective(i, j);
      assert p1 == (p1 + d1)[..|p1|] == (p2 + d2)[..|p2|] == p2;
      assert n1 == p1[6..|p1| - 1] && n2 == p2[6..|p2| - 1];
    }
  }

  // ---------------------------------------------------------------------------
  // Field dispatch

  /** The props `InlineEdit` receives from an inline descriptor (its own defaults
      applied). */
  function InlineProps(f: Field): InlineEdit.Props
    requires f.InlineField?
  {
    InlineEdit.Props(f.value, f.onChange, f.onSave, f.placeholder.GetOr(""), f.multiline.GetOr(false),
                     f.className.GetOr(""), f.titleClassName.GetOr(""), f.contentClassName.GetOr(""))
  }

  /** The props `FormInput`/`FormTextarea` receive from `{...field}`: the descriptor's
      attributes with its `name`, and its `type` passed on as the native attribute. */
  function SpreadProps(f: Field, typeAttr: string): FormInput.Props
    requires f.InputField? || f.TextareaField?
  {
    f.attrs.(name := Some(f.name), typeAttr := Some(typeAttr))
  }

  /** `renderField`: at most one keyed node; `generated` stands for the random id
      suffix `FormInput` draws. */
  function RenderField(f: Field, index: nat, generated: string): (r: seq<Node>)
    ensures |r| == (if f.OtherField? then 0 else 1)
    ensures r != [] ==> r[0].key == Some(FieldKey(f.name, index))
  {
    var key := Some(FieldKey(f.name, index));
    match f
    case InlineField(_, _, _, _, _, _, _, _, _, _, _, _) =>
      var labelNode := if Truthy(f.labelText) then [El(Label(None), "form-label", f.labelText.value, [])] else [];
      [Node(Div, key, "field-container", "",
            labelNode + [El(InlineEditor(InlineProps(f)), "", "", [])]
            + FormInput.Paragraph("text-sm mt-1", f.helpText)
            + FormInput.Paragraph("text-sm mt-1", f.error))]
    case InputField(_, _) =>
      [FormInput.Input(SpreadProps(f, "input"), generated).(key := key)]
    case TextareaField(_, _) =>
      [FormInput.Textarea(SpreadProps(f, "textarea"), generated).(key := key)]
    case OtherField(_, _) => []
  }

  /** An inline descriptor renders its label, the editor, its help text and its error,
      in that order, each decoration iff non-empty; the editor gets the descriptor's
      value and callbacks. */
  lemma InlineFieldLayout(f: Field, index: nat, generated: string)
    requires f.InlineField?
    ensures var n := RenderField(f, index, generated)[0];
      var c := if Truthy(f.labelText) then 1 else 0;
      && n.cls == "field-container"
      && |n.kids| == c + 1 + (if Truthy(f.helpText) then 1 else 0) + (if Truthy(f.error) then 1 else 0)
      && (Truthy(f.labelText) ==> n.kids[0].tag == Label(None) && n.kids[0].text == f.labelText.value)
      && n.kids[c].tag.InlineEditor?
      && n.kids[c].tag.props.value == f.value
      && n.kids[c].tag.props.onChange == f.onChange && n.kids[c].tag.props.onSave == f.onSave
      && (Truthy(f.helpText) ==> n.kids[c + 1].text == f.helpText.value)
      && (Truthy(f.error) ==> n.kids[|n.kids| - 1].text == f.error.value)
  {
  }

  /** `input` and `textarea` descriptors become a `FormInput`/`FormTextarea` whose
      control carries the descriptor's name (and, unless an `id` is given, uses it as
      its id); any other `type` renders nothing. */
  lemma DispatchByKind(f: Field, index: nat, generated: string)
    ensures f.OtherField? <==> RenderField(f, index, generated) == []
    ensures f.InputField? ==>
      (RenderField(f, index, generated)
         == [FormInput.Input(SpreadProps(f, "input"), generated).(key := Some(FieldKey(f.name, index)))])
    ensures f.TextareaField? ==>
      (RenderField(f, index, generated)
         == [FormInput.Textarea(SpreadProps(f, "textarea"), generated).(key := Some(FieldKey(f.name, index)))])
    ensures (f.InputField? || f.TextareaField?) && !Truthy(f.attrs.id) && f.name != "" ==>
      var n := RenderField(f, index, generated)[0];
      var c := if Truthy(f.attrs.labelText) then 1 else 0;
      n.kids[c].tag.id == f.name && n.kids[c].tag.name == Some(f.name)
  {
  }

  /** The descriptors mapped in order; `gen` stands for each `FormInput`'s random id
      suffix. */
  function RenderFields(fs: seq<Field>, gen: nat -> string): (r: seq<Node>)
    ensures |r| <= |fs|
  {
    MapFieldsLength(RenderField, fs, gen);
    MapFields(RenderField, fs, gen)
  }

  /** Each descriptor rendered by `render` at its own position, the results
      concatenated in array order. */
  function MapFields(render: (Field, nat, string) -> seq<Node>, fs: seq<Field>, gen: nat -> string): seq<Node>
    decreases |fs|
  {
    if fs == [] then []
    else MapFields(render, fs[..|fs| - 1], gen) + render(fs[|fs| - 1], |fs| - 1, gen(|fs| - 1))
  }

  /** What `RenderField` promises about its size, for any renderer. */
  ghost predicate OneOrNone(render: (Field, nat, string) -> seq<Node>) {
    forall f: Field, i: nat, g: string :: |render(f, i, g)| == (if f.OtherField? then 0 else 1)
  }

  lemma {:induction false} MapFieldsLength(render: (Field, nat, string) -> seq<Node>, fs: seq<Field>, gen: nat -> string)
    requires OneOrNone(render)
    ensures |MapFields(render, fs, gen)| <= |fs|
    decreases |fs|
  {
    if fs != [] {
      MapFieldsLength(render, fs[..|fs| - 1], gen);
    }
  }

  /** The positions of the descriptors with a known `type`, in array order. */
  function Positions(fs: seq<Field>): (ps: seq<nat>)
    ensures |ps| <= |fs|
    ensures forall p :: 0 <= p < |ps| ==> ps[p] < |fs| && !fs[ps[p]].OtherField?
    decreases |fs|
  {
    if fs == [] then []
    else
      var init := Positions(fs[..|fs| - 1]);
      assert forall p :: 0 <= p < |init| ==> fs[init[p]] == fs[..|fs| - 1][init[p]];
      init + (if fs[|fs| - 1].OtherField? then [] else [|fs| - 1])
  }

  /** The positions are strictly increasing. */
  lemma {:induction false} PositionsIncrease(fs: seq<Field>)
    ensures forall p, q :: 0 <= p < q < |Positions(fs)| ==> Positions(fs)[p] < Positions(fs)[q]
    decreases |fs|
  {
    if fs != [] {
      var n := |fs| - 1;
      PositionsIncrease(fs[..n]);
      var pa := Positions(fs[..n]);
      var ps := Positions(fs);
      assert ps == pa + (if fs[n].OtherField? then [] else [n]);
      forall p, q | 0 <= p < q < |ps|
        ensures ps[p] < ps[q]
      {
        assert ps[p] == pa[p] < n;
        if q < |pa| {
          assert ps[q] == pa[q] && pa[p] < pa[q];
        } else {
          assert ps[q] == n;
        }
      }
    }
  }

  /** Every known descriptor's position is listed. */
  lemma {:induction false} PositionsComplete(fs: seq<Field>)
    ensures forall i :: 0 <= i < |fs| && !fs[i].OtherField? ==> i in Positions(fs)
    decreases |fs|
  {
    if fs != [] {
      var n := |fs| - 1;
      var init := fs[..n];
      PositionsComplete(init);
      var pa := Positions(init);
      var ps := Positions(fs);
      assert ps == pa + (if fs[n].OtherField? then [] else [n]);
      forall i | 0 <= i < |fs| && !fs[i].OtherField?
        ensures i in ps
      {
        if i < n {
          assert fs[i] == init[i];
          var k :| 0 <= k < |pa| && pa[k] == i;
          assert ps[k] == i;
        } else {
          assert ps[|pa|] == i;
        }
      }
    }
  }

  /** The `p`-th rendered node is the `p`-th descriptor of known type, rendered at its
      own position: descriptors keep their array order and unknown ones are
      skipped. */
  lemma RenderFieldsFollowPositions(fs: seq<Field>, gen: nat -> string)
    ensures var r := RenderFields(fs, gen); var ps := Positions(fs);
      && |r| == |ps|
      && forall p :: 0 <= p < |r| ==> r[p] == RenderField(fs[ps[p]], ps[p], gen(ps[p]))[0]
  {
    MapFieldsFollowPositions(RenderField, fs, gen);
  }

  lemma {:induction false} MapFieldsFollowPositions(render: (Field, nat, string) -> seq<Node>, fs: seq<Field>, gen: nat -> string)
    requires OneOrNone(render)
    ensures var r := MapFields(render, fs, gen); var ps := Positions(fs);
      && |r| == |ps|
      && forall p :: 0 <= p < |r| ==> r[p] == render(fs[ps[p]], ps[p], gen(ps[p]))[0]
    decreases |fs|
  {
    if fs != [] {
      var init := fs[..|fs| - 1];
      MapFieldsFollowPositions(render, init, gen);
      var a, pa := MapFields(render, init, gen), Positions(init);
      assert forall p :: 0 <= p < |pa| ==> fs[pa[p]] == init[pa[p]];
      FollowPositionsSnoc(render, fs, gen, a, pa);
    }
  }

  /** The step of `MapFieldsFollowPositions`: one more descriptor adds its node (if
      any) and its position (if known) at the end. */
  lemma FollowPositionsSnoc(render: (Field, nat, string) -> seq<Node>, fs: seq<Field>, gen: nat -> string,
                            a: seq<Node>, pa: seq<nat>)
    requires OneOrNone(render) && fs != []
    requires forall p :: 0 <= p < |pa| ==> pa[p] < |fs| - 1 && !fs[pa[p]].OtherField?
    requires |a| == |pa|
    requires forall p :: 0 <= p < |a| ==> a[p] == render(fs[pa[p]], pa[p], gen(pa[p]))[0]
    ensures var n := |fs| - 1;
      var r := a + render(fs[n], n, gen(n));
      var ps := pa + (if fs[n].OtherField? then [] else [n]);
      && |r| == |ps|
      && forall p :: 0 <= p < |r| ==> r[p] == render(fs[ps[p]], ps[p], gen(ps[p]))[0]
  {
    var n := |fs| - 1;
    var last := render(fs[n], n, gen(n));
    var r := a + last;
    var ps := pa + (if fs[n].OtherField? then [] else [n]);
    forall p | 0 <= p < |r|
      ensures r[p] == render(fs[ps[p]], ps[p], gen(ps[p]))[0]
    {
      if p < |a| {
        assert r[p] == a[p] && ps[p] == pa[p];
      } else {
        assert r[p] == last[0] && ps[p] == n;
      }
    }
  }

  /** Rendered keys are pairwise distinct, whatever the names. */
  lemma RenderFieldsKeysUnique(fs: seq<Field>, gen: nat -> string)
    ensures var r := RenderFields(fs, gen);
      forall p, q :: 0 <= p < q < |r| ==> r[p].key != r[q].key
  {
    RenderFieldsFollowPositions(fs, gen);
    PositionsIncrease(fs);
    var r, ps := RenderFields(fs, gen), Positions(fs);
    forall p, q | 0 <= p < q < |r|
      ensures r[p].key != r[q].key
    {
      FieldKeysDistinct(fs[ps[p]].name, ps[p], fs[ps[q]].name, ps[q]);
    }
  }

  /** When every descriptor has a known type, the nodes follow the descriptors one to
      one, in array order. */
  lemma RenderFieldsInOrder(fs: seq<Field>, gen: nat -> string)
    requires forall i :: 0 <= i < |fs| ==> !fs[i].OtherField?
    ensures |RenderFields(fs, gen)| == |fs|
    ensures forall i :: 0 <= i < |fs| ==> RenderFields(fs, gen)[i] == RenderField(fs[i], i, gen(i))[0]
  {
    MapFieldsInOrder(RenderField, fs, gen);
  }

  lemma MapFieldsInOrder(render: (Field, nat, string) -> seq<Node>, fs: seq<Field>, gen: nat -> string)
    requires OneOrNone(render)
    requires forall i :: 0 <= i < |fs| ==> !fs[i].OtherField?
    ensures |MapFields(render, fs, gen)| == |fs|
    ensures forall i :: 0 <= i < |fs| ==> MapFields(render, fs, gen)[i] == render(fs[i], i, gen(i))[0]
  {
    MapFieldsFollowPositions(render, fs, gen);
    PositionsIncrease(fs);
    PositionsComplete(fs);
    AllPositions(Positions(fs), |fs|);
  }

  /** A strictly increasing sequence below `n` that contains every number below `n`
      is `0, 1, ..., n - 1`. */
  lemma {:induction false} AllPositions(ps: seq<nat>, n: nat)
    requires |ps| <= n
    requires forall p :: 0 <= p < |ps| ==> ps[p] < n
    requires forall p, q :: 0 <= p < q < |ps| ==> ps[p] < ps[q]
    requires forall i :: 0 <= i < n ==> i in ps
    ensures |ps| == n && forall p :: 0 <= p < n ==> ps[p] == p
    decreases n
  {
    if n > 0 {
      assert n - 1 in ps;
      var k :| 0 <= k < |ps| && ps[k] == n - 1;
      var last := |ps| - 1;
      assert ps[k] <= ps[last] < n;
      var init := ps[..last];
      forall i | 0 <= i < n - 1
        ensures i in init
      {
        assert i in ps;
        var j :| 0 <= j < |ps| && ps[j] == i;
        assert j < last && init[j] == i;
      }
      AllPositions(init, n - 1);
      assert forall p :: 0 <= p < |init| ==> ps[p] == init[p];
    }
  }

  // ---------------------------------------------------------------------------
  // The form

  /** `renderFormFields`: the descriptors when there are any, else the legacy arrays. */
  function FormFields(p: Props, gen: nat -> string): (r: seq<Node>)
    ensures |p.fields| > 0 ==> r == [El(Div, "space-y-6", "", RenderFields(p.fields, gen))]
    ensures |p.fields| == 0 ==> r == LegacyFields(p.inputs, p.textareas)
  {
    if |p.fields| > 0 then [El(Div, "space-y-6", "", RenderFields(p.fields, gen))]
    else LegacyFields(p.inputs, p.textareas)
  }

  /** With descriptors present the legacy arrays have no influence at all; without
      them the section is empty iff both legacy arrays are. */
  lemma FieldsTakePrecedence(p: Props, gen: nat -> string, inputs: seq<LegacyControl>, textareas: seq<LegacyControl>)
    ensures |p.fields| > 0 ==> FormFields(p, gen) == FormFields(p.(inputs := inputs, textareas := textareas), gen)
    ensures FormFields(p, gen) == [] <==> p.fields == [] && p.inputs == [] && p.textareas == []
  {
  }

  /** The element holding the fields and the button. */
  function Wrapper(p: Props, gen: nat -> string): (n: Node)
    ensures n.tag.FormElement? <==> p.onSubmit.Some?
    ensures n.tag.FormElement? ==> n.tag.onSubmit == p.onSubmit
    ensures n.kids == FormFields(p, gen) + SubmitButtonPart(p.submitButton)
  {
    var kids := FormFields(p, gen) + SubmitButtonPart(p.submitButton);
    var cls := Or(p.formClassName, "space-y-6");
    if p.onSubmit.Some? then El(FormElement(p.onSubmit), cls, "", kids) else El(Div, cls, "", kids)
  }

  function HeaderNode(p: Props): (n: Node)
    ensures n.tag == Header
    ensures |n.kids| == (if p.showLogo then 1 else 0) + (if Truthy(p.title) then 1 else 0)
                        + (if Truthy(p.subtitle) then 1 else 0)
  {
    El(Header, HeaderClasses(p.layout, p.headerClassName), "",
       LogoPart(p.showLogo) + Gated(H1, TitleClass(p.layout), p.title) + Gated(P, SubtitleClass(p.layout), p.subtitle))
  }

  /** The content area: the alerts, then the element holding the fields. */
  function ContentNode(p: Props, gen: nat -> string): (n: Node)
    ensures n.cls == ContentClasses(p.layout, p.contentClassName)
    ensures var a := (if Truthy(p.success) then 1 else 0) + (if Truthy(p.error) then 1 else 0);
      && |n.kids| == a + 1
      && n.kids[a] == Wrapper(p, gen)
      && n.kids[..a] == Alerts(p.success, p.error)
  {
    var alerts := Alerts(p.success, p.error);
    var body := alerts + [Wrapper(p, gen)];
    assert body[|alerts|] == Wrapper(p, gen) && body[..|alerts|] == alerts;
    El(Div, ContentClasses(p.layout, p.contentClassName), "", body)
  }

  /** The whole component. */
  function Render(p: Props, gen: nat -> string): (n: Node)
    ensures n.cls == ContainerClasses(p.layout, p.containerClassName)
    ensures |n.kids| == 2 + (if Truthy(p.footerText) || p.footerLink.Some? then 1 else 0)
    ensures n.kids[0].tag == Header
    ensures |n.kids[0].kids| == (if p.showLogo then 1 else 0) + (if Truthy(p.title) then 1 else 0)
                                + (if Truthy(p.subtitle) then 1 else 0)
    ensures n.kids[0] == HeaderNode(p) && n.kids[1] == ContentNode(p, gen)
    ensures |n.kids| == 3 ==> n.kids[2] == FooterPart(p.footerText, p.footerLink, "mt-8 text-center " + p.footerClassName)[0]
  {
    Frame(ContainerClasses(p.layout, p.containerClassName), HeaderNode(p), ContentNode(p, gen), FooterPart(p.footerText, p.footerLink, "mt-8 text-center " + p.footerClassName))
  }
}
