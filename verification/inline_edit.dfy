/**
 The click-to-edit text widget (`InlineEdit`): a two-state machine, Display and
 Editing, over a local edit buffer. Each event yields the next widget and the
 callbacks it fires, in order; the host's reaction to those callbacks is not part
 of the widget.
 */
module InlineEdit {
  import opened Js

  /** The props after defaults: `placeholder`, the class names and `multiline`
      default to `''` and `false`. */
  datatype Props = Props(
    value: string,
    onChange: Handler,
    onSave: Handler,
    placeholder: string,
    multiline: bool,
    className: string,
    titleClassName: string,
    contentClassName: string)

  /** The component state: `isEditing` and the edit buffer (`editValue`). */
  datatype State = State(isEditing: bool, editValue: string)

  datatype Widget = Widget(props: Props, state: State)

  /** What can happen to a mounted widget: a click on the display box, a change event
      from the control, a key press in the control, the control losing focus, and the
      parent re-rendering it with a `value` prop. */
  datatype Event =
    | Click
    | Change(text: string)
    | KeyDown(key: string, ctrlKey: bool, metaKey: bool)
    | Blur
    | ValueProp(value: string)

  /** A callback invocation: `onChange(text)`, or `onSave(text)` / `onSave()`. */
  datatype Emit = OnChange(text: string) | OnSave(arg: Option<string>)

  datatype Reaction = Reaction(next: Widget, emitted: seq<Emit>)

  /** The widget as first rendered: in Display, buffer seeded from `value`. */
  function Mount(p: Props): Widget {
    Widget(p, State(false, p.value))
  }

  /** `handleSave`'s test: the TRIMMED buffer is compared with the UNTRIMMED value. */
  predicate IsChange(value: string, buffer: string) {
    Trim(buffer) != value
  }

  /** `handleSave`: report a change (untrimmed) and save it, or save with no argument;
      either way leave edit mode with the buffer as it was. */
  function Commit(w: Widget): (r: Reaction)
    ensures r.next == Widget(w.props, w.state.(isEditing := false))
    ensures |r.emitted| >= 1 && r.emitted[|r.emitted| - 1].OnSave?
    ensures forall k :: 0 <= k < |r.emitted| - 1 ==> r.emitted[k].OnChange?
    ensures IsChange(w.props.value, w.state.editValue) <==> OnChange(w.state.editValue) in r.emitted
    ensures r.emitted[|r.emitted| - 1].arg.Some? <==> IsChange(w.props.value, w.state.editValue)
    ensures r.emitted[|r.emitted| - 1].arg.Some? ==> r.emitted[|r.emitted| - 1].arg.value == w.state.editValue
  {
    var next := Widget(w.props, w.state.(isEditing := false));
    if IsChange(w.props.value, w.state.editValue) then
      Reaction(next, [OnChange(w.state.editValue), OnSave(Some(w.state.editValue))])
    else
      Reaction(next, [OnSave(None)])
  }

  /** `handleKeyDown`, as attached to the edit control. */
  function HandleKeyDown(w: Widget, key: string, ctrlKey: bool, metaKey: bool): Reaction {
    if key == "Enter" && !w.props.multiline then Commit(w)
    else if key == "Escape" then Reaction(Widget(w.props, State(false, w.props.value)), [])
    else if key == "Enter" && w.props.multiline && (metaKey || ctrlKey) then Commit(w)
    else Reaction(w, [])
  }

  /** One event. In Display no control is mounted, so change, key and blur events
      cannot reach the handlers; the value effect runs only when `value` changed. */
  function Step(w: Widget, e: Event): (r: Reaction)
    ensures r.emitted != [] ==> w.state.isEditing && r == Commit(w)
    ensures !e.ValueProp? ==> r.next.props == w.props
    ensures e.ValueProp? ==> r.next.props == w.props.(value := e.value)
  {
    match e
    case Click =>
      if !w.state.isEditing then Reaction(w.(state := w.state.(isEditing := true)), [])
      else Reaction(w, [])
    case Change(text) =>
      if w.state.isEditing then Reaction(w.(state := w.state.(editValue := text)), [])
      else Reaction(w, [])
    case KeyDown(key, ctrlKey, metaKey) =>
      if w.state.isEditing then HandleKeyDown(w, key, ctrlKey, metaKey) else Reaction(w, [])
    case Blur =>
      if w.state.isEditing then Commit(w) else Reaction(w, [])
    case ValueProp(v) =>
      if v == w.props.value then Reaction(w, [])
      else Reaction(Widget(w.props.(value := v), w.state.(editValue := v)), [])
  }

  /** A sequence of events fed to `step`, callbacks concatenated in the order they fire. */
  function RunWith(step: (Widget, Event) -> Reaction, w: Widget, events: seq<Event>): Reaction
    decreases |events|
  {
    if events == [] then Reaction(w, [])
    else
      var first := step(w, events[0]);
      var rest := RunWith(step, first.next, events[1..]);
      Reaction(rest.next, first.emitted + rest.emitted)
  }

  /** The widget's own run. */
  function Run(w: Widget, events: seq<Event>): Reaction {
    RunWith(Step, w, events)
  }

  // ---------------------------------------------------------------------------
  // Single events

  /** A click enters Editing only from Display, keeps the buffer as it is (it is not
      reseeded from `value`) and fires nothing. */
  lemma ClickEntersEditing(w: Widget)
    ensures Step(w, Click).next.state.isEditing
    ensures Step(w, Click).next.state.editValue == w.state.editValue
    ensures Step(w, Click).emitted == []
  {
  }

  /** Typing replaces the buffer while editing, and nothing else. */
  lemma ChangeReplacesBuffer(w: Widget, text: string)
    requires w.state.isEditing
    ensures Step(w, Change(text)) == Reaction(Widget(w.props, State(true, text)), [])
  {
  }

  /** Blur commits only while editing; in Display it changes nothing. */
  lemma BlurCommitsOnlyWhileEditing(w: Widget)
    ensures w.state.isEditing ==> Step(w, Blur) == Commit(w)
    ensures !w.state.isEditing ==> Step(w, Blur) == Reaction(w, [])
  {
  }

  /** Keys: Enter commits a single-line widget; a multiline one commits only on
      Ctrl+Enter or Meta+Enter (plain Enter is left to the textarea); other keys
      besides Escape do nothing. */
  lemma EnterCommits(w: Widget, ctrlKey: bool, metaKey: bool)
    requires w.state.isEditing
    ensures !w.props.multiline ==> Step(w, KeyDown("Enter", ctrlKey, metaKey)) == Commit(w)
    ensures w.props.multiline && (ctrlKey || metaKey) ==> Step(w, KeyDown("Enter", ctrlKey, metaKey)) == Commit(w)
    ensures w.props.multiline && !ctrlKey && !metaKey ==> Step(w, KeyDown("Enter", ctrlKey, metaKey)) == Reaction(w, [])
  {
  }

  lemma OtherKeysInert(w: Widget, key: string, ctrlKey: bool, metaKey: bool)
    requires key != "Enter" && key != "Escape"
    ensures Step(w, KeyDown(key, ctrlKey, metaKey)) == Reaction(w, [])
  {
  }

  /** Escape while editing restores the buffer from `value`, leaves Editing, fires nothing. */
  lemma EscapeDiscards(w: Widget, ctrlKey: bool, metaKey: bool)
    requires w.state.isEditing
    ensures Step(w, KeyDown("Escape", ctrlKey, metaKey)) == Reaction(Mount(w.props), [])
  {
  }

  /** A new `value` prop reseeds the buffer in either mode; the same value does nothing. */
  lemma ValuePropResyncs(w: Widget, v: string)
    ensures v != w.props.value ==>
      Step(w, ValueProp(v)).next == Widget(w.props.(value := v), State(w.state.isEditing, v))
    ensures v == w.props.value ==> Step(w, ValueProp(v)) == Reaction(w, [])
    ensures Step(w, ValueProp(v)).emitted == []
  {
  }

  // ---------------------------------------------------------------------------
  // The commit rule on concrete buffers

  /** Trailing or leading white space added to an unpadded value is not a change:
      the commit only calls `onSave()`. */
  lemma PaddedBufferIsNoOp(w: Widget, before: string, after: string)
    requires w.state.isEditing && Unpadded(w.props.value)
    requires AllWhiteSpace(before) && AllWhiteSpace(after)
    requires w.state.editValue == before + w.props.value + after
    ensures Step(w, Blur).emitted == [OnSave(None)]
  {
    TrimOfPadded(before, w.props.value, after);
  }

  /** Opening a widget and leaving it untouched is a no-op save exactly when the
      value has no surrounding white space; a padded value such as " Hello" is
      reported as a change of itself. */
  lemma UntouchedSession(p: Props)
    ensures Unpadded(p.value) ==> Run(Mount(p), [Click, Blur]).emitted == [OnSave(None)]
    ensures !Unpadded(p.value) ==>
      Run(Mount(p), [Click, Blur]).emitted == [OnChange(p.value), OnSave(Some(p.value))]
    ensures Run(Mount(p), [Click, Blur]).next == Mount(p)
  {
    TrimFixedPoint(p.value);
    var w1 := Step(Mount(p), Click).next;
    assert [Click, Blur][1..] == [Blur];
    assert Run(w1, [Blur]) == Reaction(Commit(w1).next, Commit(w1).emitted + []);
  }

  /** Editing a value and blurring reports the new buffer, untrimmed, then saves it. */
  lemma EditSession(p: Props, text: string)
    requires Trim(text) != p.value
    ensures Run(Mount(p), [Click, Change(text), Blur]).emitted == [OnChange(text), OnSave(Some(text))]
    ensures Run(Mount(p), [Click, Change(text), Blur]).next == Widget(p, State(false, text))
  {
    var w1 := Widget(p, State(true, p.value));
    var w2 := Widget(p, State(true, text));
    assert Step(Mount(p), Click) == Reaction(w1, []);
    assert Step(w1, Change(text)) == Reaction(w2, []);
    RunSingle(w2, Blur);
    RunCons(w1, Change(text), [Blur]);
    RunCons(Mount(p), Click, [Change(text), Blur]);
  }

  lemma RunSingle(w: Widget, e: Event)
    ensures Run(w, [e]) == Step(w, e)
  {
    assert [e][1..] == [];
    assert RunWith(Step, Step(w, e).next, []) == Reaction(Step(w, e).next, []);
  }

  lemma RunCons(w: Widget, e: Event, rest: seq<Event>)
    ensures Run(w, [e] + rest)
      == Reaction(Run(Step(w, e).next, rest).next, Step(w, e).emitted + Run(Step(w, e).next, rest).emitted)
  {
    assert ([e] + rest)[0] == e;
    assert ([e] + rest)[1..] == rest;
  }

  // ---------------------------------------------------------------------------
  // Traces of whole runs

  /** A trace of commits: each is `onSave()` alone, or `onChange(x)` immediately
      followed by `onSave(x)`. */
  predicate Commits(t: seq<Emit>)
    decreases |t|
  {
    if t == [] then true
    else if t[0] == OnSave(None) then Commits(t[1..])
    else |t| >= 2 && t[0].OnChange? && t[1] == OnSave(Some(t[0].text)) && Commits(t[2..])
  }

  lemma {:induction false} CommitsAppend(a: seq<Emit>, b: seq<Emit>)
    requires Commits(a) && Commits(b)
    ensures Commits(a + b)
    decreases |a|
  {
    if a == [] {
      assert a + b == b;
    } else if a[0] == OnSave(None) {
      CommitsAppend(a[1..], b);
      SkipCommitAppend(a, b);
    } else {
      CommitsAppend(a[2..], b);
      EditCommitAppend(a, b);
    }
  }

  /** A leading no-change commit stays in front when more commits follow. */
  lemma SkipCommitAppend(a: seq<Emit>, b: seq<Emit>)
    requires a != [] && a[0] == OnSave(None) && Commits(a[1..] + b)
    ensures Commits(a + b)
  {
    assert (a + b)[1..] == a[1..] + b;
  }

  /** A leading change-and-save commit stays in front when more commits follow. */
  lemma EditCommitAppend(a: seq<Emit>, b: seq<Emit>)
    requires |a| >= 2 && a[0].OnChange? && a[1] == OnSave(Some(a[0].text)) && Commits(a[2..] + b)
    ensures Commits(a + b)
  {
    assert (a + b)[2..] == a[2..] + b;
  }

  lemma CommitIsWhole(w: Widget)
    ensures Commits(Commit(w).emitted)
  {
    var t := Commit(w).emitted;
    if t != [OnSave(None)] {
      assert t[2..] == [];
    } else {
      assert t[1..] == [];
    }
  }

  /** Whatever the events, the callbacks fired form a sequence of whole commits:
      `onChange` is never fired without the matching `onSave` right after it. */
  lemma {:induction false} RunFiresWholeCommits(w: Widget, events: seq<Event>)
    ensures Commits(Run(w, events).emitted)
    decreases |events|
  {
    if events != [] {
      var first := Step(w, events[0]);
      RunFiresWholeCommits(first.next, events[1..]);
      if first.emitted != [] {
        CommitIsWhole(w);
      }
      CommitsAppend(first.emitted, Run(first.next, events[1..]).emitted);
    }
  }

  /** Without a click, a widget in Display stays in Display and fires nothing. */
  lemma {:induction false} NoClickNoCallbacks(w: Widget, events: seq<Event>)
    requires !w.state.isEditing
    requires forall k :: 0 <= k < |events| ==> !events[k].Click?
    ensures Run(w, events).emitted == []
    ensures !Run(w, events).next.state.isEditing
    decreases |events|
  {
    if events != [] {
      NoClickNoCallbacks(Step(w, events[0]).next, events[1..]);
    }
  }

  /** While editing, any number of change events fires nothing and leaves the last
      text in the buffer. */
  lemma {:induction false} TypingFiresNothing(w: Widget, texts: seq<string>)
    requires w.state.isEditing
    ensures var r := Run(w, Changes(texts));
      r.emitted == [] && r.next.props == w.props && r.next.state.isEditing
      && r.next.state.editValue == (if texts == [] then w.state.editValue else texts[|texts| - 1])
    decreases |texts|
  {
    if texts != [] {
      assert Changes(texts)[1..] == Changes(texts[1..]);
      TypingFiresNothing(Step(w, Change(texts[0])).next, texts[1..]);
    }
  }

  function Changes(texts: seq<string>): (r: seq<Event>)
    ensures |r| == |texts|
    ensures forall k :: 0 <= k < |texts| ==> r[k] == Change(texts[k])
  {
    seq(|texts|, k requires 0 <= k < |texts| => Change(texts[k]))
  }

  /** Click, any typing, then Escape: no callback fires and the widget is back where
      it was mounted. */
  lemma EscapeSession(p: Props, texts: seq<string>)
    ensures Run(Mount(p), [Click] + Changes(texts) + [KeyDown("Escape", false, false)])
              == Reaction(Mount(p), [])
  {
    var editing := Step(Mount(p), Click).next;
    TypingFiresNothing(editing, texts);
    RunAppend(editing, Changes(texts), [KeyDown("Escape", false, false)]);
    assert ([Click] + Changes(texts) + [KeyDown("Escape", false, false)])[1..]
      == Changes(texts) + [KeyDown("Escape", false, false)];
  }

  lemma RunAppend(w: Widget, a: seq<Event>, b: seq<Event>)
    ensures Run(w, a + b).next == Run(Run(w, a).next, b).next
    ensures Run(w, a + b).emitted == Run(w, a).emitted + Run(Run(w, a).next, b).emitted
  {
    RunWithAppend(Step, w, a, b);
  }

  /** Running two event sequences in turn is running their concatenation, whatever
      the step function. */
  lemma {:induction false} RunWithAppend(step: (Widget, Event) -> Reaction, w: Widget, a: seq<Event>, b: seq<Event>)
    ensures RunWith(step, w, a + b).next == RunWith(step, RunWith(step, w, a).next, b).next
    ensures RunWith(step, w, a + b).emitted
              == RunWith(step, w, a).emitted + RunWith(step, RunWith(step, w, a).next, b).emitted
    decreases |a|
  {
    if a == [] {
      assert a + b == b;
    } else {
      ConsAppend(a, b);
      RunWithAppend(step, step(w, a[0]).next, a[1..], b);
    }
  }

  /** One step of `Run`, stated once so that callers need not unfold it. */
  lemma RunUnfold(w: Widget, events: seq<Event>)
    requires events != []
    ensures var first := Step(w, events[0]); var rest := Run(first.next, events[1..]);
      Run(w, events) == Reaction(rest.next, first.emitted + rest.emitted)
  {
  }

  lemma ConsAppend<T>(a: seq<T>, b: seq<T>)
    requires a != []
    ensures (a + b)[0] == a[0] && (a + b)[1..] == a[1..] + b
  {
  }

  // ---------------------------------------------------------------------------
  // Rendering

  /** The height of the multiline editor: the buffer's line count, at least 3. */
  function EditorRows(buffer: string): (rows: int)
    ensures rows >= 3
    ensures rows == (if Count(buffer, '\n') + 1 > 3 then Count(buffer, '\n') + 1 else 3)
  {
    SplitLength(buffer, '\n');
    var lines := |Split(buffer, '\n')|;
    if lines > 3 then lines else 3
  }

  datatype View =
    | DisplayBox(cls: string, spanClass: string, text: string)
    | LineEditor(value: string, cls: string, placeholder: string)
    | AreaEditor(value: string, cls: string, placeholder: string, rows: int)

  /** What the widget shows: the editor while editing (a textarea iff multiline, bound
      to the buffer), otherwise a display box showing the value, or the placeholder
      with the `inline-edit-empty` class when the value is empty. */
  function Render(w: Widget): (v: View)
    ensures v.DisplayBox? <==> !w.state.isEditing
    ensures v.AreaEditor? <==> w.state.isEditing && w.props.multiline
    ensures !v.DisplayBox? ==> v.value == w.state.editValue && v.placeholder == w.props.placeholder
    ensures v.AreaEditor? ==> v.rows >= 3
    ensures v.DisplayBox? ==>
      && (EndsWith(v.cls, "inline-edit-empty") <==> w.props.value == "")
      && v.text == (if w.props.value == "" then w.props.placeholder else w.props.value)
      && (w.props.value != "" ==>
            v.spanClass == (if w.props.multiline then w.props.contentClassName else w.props.titleClassName))
  {
    var p := w.props;
    if w.state.isEditing then
      if p.multiline then
        AreaEditor(w.state.editValue, "inline-edit-input " + p.contentClassName, p.placeholder,
                   EditorRows(w.state.editValue))
      else
        LineEditor(w.state.editValue, "inline-edit-input " + p.titleClassName, p.placeholder)
    else
      var isEmpty := p.value == "";
      var cls := "inline-edit-display " + p.className + " " + (if isEmpty then "inline-edit-empty" else "");
      assert !isEmpty ==> cls[|cls| - 1] == ' ';
      if isEmpty then DisplayBox(cls, "inline-edit-placeholder", p.placeholder)
      else DisplayBox(cls, if p.multiline then p.contentClassName else p.titleClassName, p.value)
  }
}
