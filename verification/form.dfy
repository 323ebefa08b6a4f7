/**
 `Form`: the older, fixed-layout form. Same header, alerts, legacy fields, submit
 button and footer as `FlexibleForm`, but always the card styling and always a
 `<form>` element around the fields, whether or not a submit handler is given.
 */
module Form {
  import opened Js
  import opened Dom
  import opened FormParts
  import FlexibleForm

  /** The props after defaults (`showLogo` defaults to true; absent arrays are empty). */
  datatype Props = Props(
    title: Option<string>,
    subtitle: Option<string>,
    showLogo: bool,
    footerText: Option<string>,
    footerLink: Option<FooterLink>,
    error: Option<string>,
    success: Option<string>,
    onSubmit: Option<Handler>,
    formClassName: Option<string>,
    inputs: seq<LegacyControl>,
    textareas: seq<LegacyControl>,
    submitButton: Option<SubmitButton>)

  /** The `<form>` element: legacy fields, then the submit button. */
  function FormNode(p: Props): (n: Node)
    ensures n.tag == FormElement(p.onSubmit)
    ensures n.cls == Or(p.formClassName, "space-y-6")
    ensures n.kids == LegacyFields(p.inputs, p.textareas) + SubmitButtonPart(p.submitButton)
  {
    El(FormElement(p.onSubmit), Or(p.formClassName, "space-y-6"), "",
       LegacyFields(p.inputs, p.textareas) + SubmitButtonPart(p.submitButton))
  }

  function HeaderNode(p: Props): (n: Node)
    ensures n.tag == Header
    ensures |n.kids| == (if p.showLogo then 1 else 0) + (if Truthy(p.title) then 1 else 0)
                        + (if Truthy(p.subtitle) then 1 else 0)
  {
    El(Header, "text-center mb-10", "",
       LogoPart(p.showLogo) + Gated(H1, "mt-6 text-2xl font-semibold", p.title) + Gated(P, "mt-2 text-sm", p.subtitle))
  }

  /** The content area: the alerts, then the form. */
  function ContentNode(p: Props): (n: Node)
    ensures var a := (if Truthy(p.success) then 1 else 0) + (if Truthy(p.error) then 1 else 0);
      && |n.kids| == a + 1
      && n.kids[..a] == Alerts(p.success, p.error)
      && n.kids[a] == FormNode(p)
  {
    var alerts := Alerts(p.success, p.error);
    var body := alerts + [FormNode(p)];
    assert body[|alerts|] == FormNode(p) && body[..|alerts|] == alerts;
    El(Div, "", "", body)
  }

  /** The whole component: header, then the alerts and the form, then the footer
      when there is footer text or a link. */
  function Render(p: Props): (n: Node)
    ensures n.cls == "card w-full max-w-md animate-slide-in"
    ensures |n.kids| == 2 + (if Truthy(p.footerText) || p.footerLink.Some? then 1 else 0)
    ensures n.kids[0].tag == Header
    ensures |n.kids[0].kids| == (if p.showLogo then 1 else 0) + (if Truthy(p.title) then 1 else 0)
                                + (if Truthy(p.subtitle) then 1 else 0)
    ensures n.kids[0] == HeaderNode(p) && n.kids[1] == ContentNode(p)
    ensures |n.kids| == 3 ==> n.kids[2] == FooterPart(p.footerText, p.footerLink, "mt-8 text-center")[0]
  {
    Frame("card w-full max-w-md animate-slide-in", HeaderNode(p), ContentNode(p), FooterPart(p.footerText, p.footerLink, "mt-8 text-center"))
  }

  /** The same props as a `FlexibleForm` with no descriptors, default layout and no
      extra classes. */
  function AsFlexible(p: Props): FlexibleForm.Props {
    FlexibleForm.Props(p.title, p.subtitle, p.showLogo, p.footerText, p.footerLink, p.error, p.success,
                       p.onSubmit, p.formClassName, [], p.submitButton, "card", "", "", "", "",
                       p.inputs, p.textareas)
  }

  /** `Form` and a descriptor-less `FlexibleForm` with the same props render the same
      header content, the same fields and button in the same order, and the same
      footer content (the class strings differ only by `FlexibleForm`'s trailing
      separator); the one structural difference is the wrapper, which `Form` makes a
      `<form>` even without a submit handler. */
  lemma AgreesWithFlexibleForm(p: Props, gen: nat -> string)
    ensures var f := FlexibleForm.Render(AsFlexible(p), gen); var n := Render(p);
      && |n.kids| == |f.kids|
      && n.kids[0].kids == f.kids[0].kids
      && FormNode(p).kids == FlexibleForm.Wrapper(AsFlexible(p), gen).kids
      && (|n.kids| == 3 ==> n.kids[2].kids == f.kids[2].kids)
      && (p.onSubmit.Some? <==> FlexibleForm.Wrapper(AsFlexible(p), gen).tag == FormNode(p).tag)
  {
    SameHeader(p, gen);
    SameFooter(p, gen);
    FieldsAgree(p, gen);
  }

  lemma SameHeader(p: Props, gen: nat -> string)
    ensures Render(p).kids[0].kids == FlexibleForm.Render(AsFlexible(p), gen).kids[0].kids
  {
    HeadersAgree(p);
  }

  lemma SameFooter(p: Props, gen: nat -> string)
    ensures var f := FlexibleForm.Render(AsFlexible(p), gen); var n := Render(p);
      && |n.kids| == |f.kids|
      && (|n.kids| == 3 ==> n.kids[2].kids == f.kids[2].kids)
  {
    var q := AsFlexible(p);
    FootersAgree(p.footerText, p.footerLink, "mt-8 text-center", "mt-8 text-center " + q.footerClassName);
  }

  lemma HeadersAgree(p: Props)
    ensures HeaderNode(p).kids == FlexibleForm.HeaderNode(AsFlexible(p)).kids
  {
  }

  /** The footer's content does not depend on its class. */
  lemma FootersAgree(text: Option<string>, link: Option<FooterLink>, cls1: string, cls2: string)
    ensures FooterPart(text, link, cls1) != [] ==> FooterPart(text, link, cls1)[0].kids == FooterPart(text, link, cls2)[0].kids
  {
  }

  lemma FieldsAgree(p: Props, gen: nat -> string)
    ensures FormNode(p).kids == FlexibleForm.Wrapper(AsFlexible(p), gen).kids
  {
  }
}
