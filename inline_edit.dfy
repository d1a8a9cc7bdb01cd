/** The click-to-edit field (wellbuddy-app/src/components/InlineEdit.jsx):
    it shows a label and a value with a pencil button; the pencil opens an
    input holding a draft, which Save or Enter hands to `onSave` and Cancel
    or Escape throws away. Without `canEdit` it is a plain read-only label.
    The component's state is its two `useState` hooks; its props are
    `value` (absent is `None`) and `canEdit`. */
module InlineEdit {
  import opened Collections

  /** What the user can do to the field. Save and Enter call `onSave`;
      `accepted` says whether the promise it returns resolves (the store
      took the write) or rejects, which `save` does not catch. */
  datatype Event =
    | EditClicked
    | Typed(text: string)
    | SaveClicked(accepted: bool)
    | CancelClicked
    | KeyDown(key: string, accepted: bool)

  /** The component's state: `editing` and `draft`. */
  datatype View = View(editing: bool, draft: string)

  /** What the field renders: a read-only label, the value with a pencil
      button, or the input with its draft. */
  datatype Screen = Label(text: string) | Display(text: string) | Input(draft: string)

  /** The draft a value starts or restarts from: `value ?? ""`. */
  function Reset(value: Option<string>): (d: string)
    ensures value.Some? ==> d == value.value
    ensures value.None? ==> d == ""
  {
    GetOr(value, "")
  }

  /** The state on mount. */
  function Initial(value: Option<string>): (v: View)
    ensures !v.editing && v.draft == Reset(value)
  {
    View(false, Reset(value))
  }

  /** `value || "—"`: an absent or empty value is shown as a dash. */
  function Shown(value: Option<string>): (s: string)
    ensures value.Some? && Truthy(value.value) ==> s == value.value
    ensures !(value.Some? && Truthy(value.value)) ==> s == "—"
    ensures s != ""
  {
    if value.Some? && Truthy(value.value) then value.value else "—"
  }

  /** The rendered field: the input only when the user may edit and is
      editing, and otherwise the value as shown. */
  function Render(value: Option<string>, canEdit: bool, v: View): (s: Screen)
    ensures s.Input? <==> canEdit && v.editing
    ensures s.Input? ==> s.draft == v.draft
    ensures s.Label? <==> !canEdit
    ensures !s.Input? ==> s.text == Shown(value)
  {
    if !canEdit then Label(Shown(value))
    else if v.editing then Input(v.draft)
    else Display(Shown(value))
  }

  /** One event against the rendered field: the new state and the text
      handed to `onSave`, if any. An event aimed at a control the field does
      not render (any event on the read-only label, the input's events while
      not editing, the pencil while editing) changes nothing. `save` awaits
      `onSave` before it closes the editor, so a rejected save leaves the
      editor open with its draft. */
  function Step(value: Option<string>, canEdit: bool, v: View, e: Event): (r: (View, Option<string>))
    // the pencil opens the editor on the current draft
    ensures canEdit && !v.editing && e == EditClicked ==> r == (View(true, v.draft), None)
    // typing replaces the draft
    ensures canEdit && v.editing && e.Typed? ==> r == (View(true, e.text), None)
    // Save and Enter hand over the draft, closing the editor once the save is accepted
    ensures canEdit && v.editing && (e == SaveClicked(true) || e == KeyDown("Enter", true)) ==>
              r == (View(false, v.draft), Some(v.draft))
    ensures canEdit && v.editing && (e == SaveClicked(false) || e == KeyDown("Enter", false)) ==>
              r == (v, Some(v.draft))
    // Cancel and Escape restore `value ?? ""` and close without saving
    ensures canEdit && v.editing && (e == CancelClicked || (e.KeyDown? && e.key == "Escape")) ==>
              r == (Initial(value), None)
    // the pencil is hidden while editing, and other keys do nothing
    ensures canEdit && v.editing && (e == EditClicked || (e.KeyDown? && e.key != "Enter" && e.key != "Escape")) ==>
              r == (v, None)
    // and nothing else hands over a text, opens the editor or changes the draft
    ensures !canEdit ==> r == (v, None)
    ensures r.1.Some? ==> canEdit && v.editing && r.1.value == v.draft
    ensures r.0.editing && !v.editing ==> canEdit && e == EditClicked && r.0.draft == v.draft
    ensures r.0.draft != v.draft ==> canEdit && v.editing && (r.0.draft == Reset(value) || e == Typed(r.0.draft))
  {
    if !canEdit then (v, None)
    else if !v.editing then
      if e == EditClicked then (v.(editing := true), None) else (v, None)
    else
      match e
      case EditClicked => (v, None)
      case Typed(text) => (v.(draft := text), None)
      case SaveClicked(accepted) => (v.(editing := !accepted), Some(v.draft))
      case CancelClicked => (View(false, Reset(value)), None)
      case KeyDown(key, accepted) =>
        if key == "Enter" then (v.(editing := !accepted), Some(v.draft))
        else if key == "Escape" then (View(false, Reset(value)), None)
        else (v, None)
  }

  /** A sequence of events: the final state and the texts handed to
      `onSave`, in order. A read-only field never changes and never saves. */
  function Run(value: Option<string>, canEdit: bool, v: View, events: seq<Event>): (r: (View, seq<string>))
    ensures !canEdit ==> r == (v, [])
    ensures |r.1| <= |events|
    decreases |events|
  {
    if events == [] then (v, [])
    else
      var (v', saved) := Step(value, canEdit, v, events[0]);
      var (final, rest) := Run(value, canEdit, v', events[1..]);
      (final, (if saved.Some? then [saved.value] else []) + rest)
  }

  /** Enter in the input does what the Save button does, and Escape what the
      Cancel button does. */
  lemma KeysActAsButtons(value: Option<string>, canEdit: bool, v: View)
    ensures forall accepted :: Step(value, canEdit, v, KeyDown("Enter", accepted)) == Step(value, canEdit, v, SaveClicked(accepted))
    ensures forall accepted :: Step(value, canEdit, v, KeyDown("Escape", accepted)) == Step(value, canEdit, v, CancelClicked)
  {
  }

  /** Every text handed to `onSave` is the draft the run started from, the
      value's reset draft, or a text the user typed; the final draft is too. */
  lemma {:induction false} SavedTextsWereTyped(value: Option<string>, canEdit: bool, v: View, events: seq<Event>)
    ensures var (final, saves) := Run(value, canEdit, v, events);
      (forall s :: s in saves ==> s == v.draft || s == Reset(value) || Typed(s) in events)
      && (final.draft == v.draft || final.draft == Reset(value) || Typed(final.draft) in events)
    decreases |events|
  {
    if events != [] {
      var (v', saved) := Step(value, canEdit, v, events[0]);
      SavedTextsWereTyped(value, canEdit, v', events[1..]);
      assert events == [events[0]] + events[1..];
      forall t | Typed(t) in events[1..]
        ensures Typed(t) in events
      {
      }
    }
  }

  /** Opening the editor, typing a text and saving, with the save accepted,
      hands exactly that text to `onSave` and closes the editor with the
      text as its draft. */
  lemma EditTypeSave(value: Option<string>, text: string)
    ensures Run(value, true, Initial(value), [EditClicked, Typed(text), SaveClicked(true)]) == (View(false, text), [text])
    ensures Run(value, true, Initial(value), [EditClicked, Typed(text), KeyDown("Enter", true)]) == (View(false, text), [text])
  {
    var start := Initial(value);
    forall last | last == SaveClicked(true) || last == KeyDown("Enter", true)
      ensures Run(value, true, start, [EditClicked, Typed(text), last]) == (View(false, text), [text])
    {
      var es := [EditClicked, Typed(text), last];
      assert es[1..] == [Typed(text), last] && es[1..][1..] == [last] && [last][1..] == [];
      assert Step(value, true, View(true, text), last) == (View(false, text), Some(text));
      assert [text] + [] == [text];
      assert Run(value, true, View(true, text), [last]) == (View(false, text), [text]);
      assert Step(value, true, View(true, start.draft), Typed(text)) == (View(true, text), None);
      assert [Typed(text), last][1..] == [last];
      assert [] + [text] == [text];
      assert Run(value, true, View(true, start.draft), [Typed(text), last]) == (View(false, text), [text]);
    }
  }

  /** Opening the editor, typing and cancelling saves nothing and leaves the
      field as it was on mount. */
  lemma EditTypeCancel(value: Option<string>, text: string)
    ensures Run(value, true, Initial(value), [EditClicked, Typed(text), CancelClicked]) == (Initial(value), [])
    ensures Run(value, true, Initial(value), [EditClicked, Typed(text), KeyDown("Escape", false)]) == (Initial(value), [])
  {
    var start := Initial(value);
    forall last | last == CancelClicked || last == KeyDown("Escape", false)
      ensures Run(value, true, start, [EditClicked, Typed(text), last]) == (start, [])
    {
      var es := [EditClicked, Typed(text), last];
      assert es[1..] == [Typed(text), last] && es[1..][1..] == [last] && [last][1..] == [];
      assert Run(value, true, View(true, text), [last]) == (start, []);
      assert Run(value, true, View(true, start.draft), [Typed(text), last]) == (start, []);
    }
  }

  /** A mounted field: its props and its state. Re-rendering with new props
      keeps the state, so the draft is not refreshed from a changed value
      until Cancel or Escape. */
  class InlineEditor {
    var value: Option<string>
    var canEdit: bool
    var editing: bool
    var draft: string

    constructor (value: Option<string>, canEdit: bool)
      ensures this.value == value && this.canEdit == canEdit
      ensures View(editing, draft) == Initial(value)
    {
      this.value := value;
      this.canEdit := canEdit;
      editing := false;
      draft := GetOr(value, "");
    }

    function Screen(): (s: Screen)
      reads this
    {
      Render(value, canEdit, View(editing, draft))
    }

    /** The handlers wired to the rendered controls. */
    method Handle(e: Event) returns (saved: Option<string>)
      modifies this
      ensures (View(editing, draft), saved) == Step(value, canEdit, old(View(editing, draft)), e)
      ensures value == old(value) && canEdit == old(canEdit)
    {
      saved := None;
      if !canEdit {
        return;
      }
      if !editing {
        if e == EditClicked {
          editing := true;
        }
        return;
      }
      match e {
        case EditClicked =>
        case Typed(text) =>
          draft := text;
        case SaveClicked(accepted) =>
          saved := Some(draft);
          if accepted {
            editing := false;
          }
        case CancelClicked =>
          draft := GetOr(value, "");
          editing := false;
        case KeyDown(key, accepted) =>
          if key == "Enter" {
            saved := Some(draft);
            if accepted {
              editing := false;
            }
          }
          if key == "Escape" {
            draft := GetOr(value, "");
            editing := false;
          }
      }
    }

    /** The parent re-renders the field with new props. */
    method Rerender(value: Option<string>, canEdit: bool)
      modifies this
      ensures this.value == value && this.canEdit == canEdit
      ensures editing == old(editing) && draft == old(draft)
    {
      this.value := value;
      this.canEdit := canEdit;
    }
  }
}
