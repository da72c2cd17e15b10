/** The dialog that shares a word list: its form (name, description, tags) and its submit. */
module ShareDialog {
  import opened Wrappers
  import opened Seqs
  import opened TagFilter

  /** What `addToSharedlist` answers. */
  datatype ActionResult = ActionResult(error: bool, message: string)

  datatype Toast = Toast(title: string, description: string, destructive: bool)

  /** The toast `onSubmit` shows for a result: one for a non-empty message, none otherwise. */
  function ToastFor(data: ActionResult): (r: seq<Toast>)
    ensures |r| <= 1
    ensures r != [] <==> data.message != ""
    ensures r != [] ==> r[0].description == data.message && r[0].destructive == data.error
  {
    if data.message != "" then
      [Toast(if data.error then "Error" else "Success", data.message, data.error)]
    else []
  }

  /** The tag buttons' new value: an undefined value counts as no tags. */
  function ToggledField(tags: Option<seq<string>>, tag: string): (r: seq<string>)
    ensures tag in r <==> tags.None? || tag !in tags.value
  {
    ToggleTag(tags.GetOr([]), tag)
  }

  /** On an undefined value the first click selects just that tag. */
  lemma ToggleUndefinedSelectsOne(tag: string)
    ensures ToggledField(None, tag) == [tag]
  {
  }

  /** Two clicks on an unselected tag give back the selection, an undefined one as []. */
  lemma ToggleFieldTwice(tags: Option<seq<string>>, tag: string)
    requires tags.None? || tag !in tags.value
    ensures ToggledField(Some(ToggledField(tags, tag)), tag) == tags.GetOr([])
  {
    ToggleTwice(tags.GetOr([]), tag);
  }

  /** Clicking never creates a repeated tag. */
  lemma ToggleFieldKeepsDistinct(tags: Option<seq<string>>, tag: string)
    requires tags.None? || NoDuplicates(tags.value)
    ensures NoDuplicates(ToggledField(tags, tag))
  {
    ToggleKeepsNoDuplicates(tags.GetOr([]), tag);
  }

  class Dialog {
    const listTitle: string
    var open: bool
    var name: string
    var description: string
    var tags: Option<seq<string>>
    /** The toasts shown so far, oldest first. */
    var toasts: seq<Toast>

    /** The form holds `defaultValues`: the list's title, an empty description, no tags. */
    predicate AtDefaults()
      reads this
    {
      name == listTitle && description == "" && tags == Some([])
    }

    constructor (listTitle: string)
      ensures this.listTitle == listTitle && AtDefaults() && !open && toasts == []
    {
      this.listTitle := listTitle;
      open := false;
      name := listTitle;
      description := "";
      tags := Some([]);
      toasts := [];
    }

    /** `onOpenChange`. */
    method SetOpen(b: bool)
      modifies this`open
      ensures open == b
    {
      open := b;
    }

    /** A tag button's click. */
    method ToggleFieldTag(tag: string)
      modifies this`tags
      ensures tags == Some(ToggledField(old(tags), tag))
    {
      tags := Some(ToggledField(tags, tag));
    }

    /** After the action answers: a toast for a non-empty message, then `form.reset()` and close. */
    method OnSubmit(data: ActionResult)
      modifies this
      ensures toasts == old(toasts) + ToastFor(data)
      ensures AtDefaults() && !open
    {
      toasts := toasts + ToastFor(data);
      name := listTitle;
      description := "";
      tags := Some([]);
      open := false;
    }
  }
}
