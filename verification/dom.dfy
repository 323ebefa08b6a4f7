/**
 The abstract render tree the components produce: ordered element records with a
 tag (carrying the attributes the model tracks), an optional React key, a class
 string, text content and children. Styling attributes, icons and inline styles
 are not represented.
 */
module Dom {
  import opened Js
  import InlineEdit

  datatype Control = InputControl | TextareaControl

  datatype Tag =
    | Div
    | Span
    | P
    | H1
    | Header
    | Footer
    | Text
    | Logo
    | Label(htmlFor: Option<string>)
    | Field(control: Control, id: string, name: Option<string>, typeAttr: Option<string>)
    | Button(buttonType: string, disabled: bool, busy: bool)
    | FormElement(onSubmit: Option<Handler>)
    | Anchor(href: string)
    | InlineEditor(props: InlineEdit.Props)

  datatype Node = Node(tag: Tag, key: Option<string>, cls: string, text: string, kids: seq<Node>)

  /** An element without a key. */
  function El(tag: Tag, cls: string, text: string, kids: seq<Node>): Node {
    Node(tag, None, cls, text, kids)
  }

  /** A bare text node, as JSX renders an interpolated string. */
  function TextNode(s: string): Node {
    Node(Text, None, "", s, [])
  }
}
