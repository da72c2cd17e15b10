/** The button that copies a word into one of the user's word lists. */
module CopyButton {
  import opened Wrappers
  import opened ShareDialog
  import opened Schemas

  /** A list the word can be copied to. */
  datatype ListChoice = ListChoice(id: string, name: string, description: Option<string>)

  const PreviewLength := 20
  const Ellipsis := "..."

  /**
   * The description line under a list's name: none for a missing or empty
   * description, the description itself up to 20 characters, and otherwise
   * its first 20 characters followed by "...".
   */
  function DescriptionLine(description: Option<string>): (r: Option<string>)
    ensures r.None? <==> description.None? || description.value == ""
    ensures r.Some? ==> |r.value| <= PreviewLength + |Ellipsis|
    ensures r.Some? && |description.value| <= PreviewLength ==> r.value == description.value
    ensures r.Some? && |description.value| > PreviewLength ==>
      r.value == description.value[..PreviewLength] + Ellipsis
  {
    if description.None? || description.value == "" then None
    else if |description.value| > PreviewLength then Some(description.value[..PreviewLength] + Ellipsis)
    else Some(description.value)
  }

  /** The line always starts with the description's first `min(20, length)` characters. */
  lemma DescriptionLineKeepsPrefix(description: string)
    requires description != ""
    ensures var line := DescriptionLine(Some(description)).value;
      var n := if |description| < PreviewLength then |description| else PreviewLength;
      n <= |line| && line[..n] == description[..n]
  {
    var line := DescriptionLine(Some(description)).value;
    if |description| > PreviewLength {
      assert line[..PreviewLength] == description[..PreviewLength];
    }
  }

  /**
   * The line shows the description unchanged exactly when it has at most 20
   * characters or already is 20 characters followed by "...".
   */
  lemma DescriptionLineUnchangedIff(description: string)
    requires description != ""
    ensures DescriptionLine(Some(description)) == Some(description) <==>
      |description| <= PreviewLength || (|description| == PreviewLength + 3 && description[PreviewLength..] == Ellipsis)
  {
    if |description| > PreviewLength {
      var line := DescriptionLine(Some(description)).value;
      assert line[PreviewLength..] == Ellipsis;
      if |description| == PreviewLength + 3 && description[PreviewLength..] == Ellipsis {
        assert description == description[..PreviewLength] + description[PreviewLength..];
      }
    }
  }

  const NoListsToast := Toast("단어 추가하기", "먼저 단어장을 생성해주세요", false)

  /** The toast after `copyWordToList` answers; every answer gets one. */
  function ResultToast(result: ActionResult): (t: Toast)
    ensures t.description == result.message && t.destructive == result.error
    ensures t.title == "Error" <==> result.error
  {
    Toast(if result.error then "Error" else "Success", result.message, result.error)
  }

  class CopyButton {
    const word: StoredWord
    const lists: seq<ListChoice>
    var open: bool
    var toasts: seq<Toast>
    /** The copies requested so far: the target list and the word. */
    var requests: seq<(string, StoredWord)>

    constructor (word: StoredWord, lists: seq<ListChoice>)
      ensures this.word == word && this.lists == lists
      ensures !open && toasts == [] && requests == []
    {
      this.word := word;
      this.lists := lists;
      open := false;
      toasts := [];
      requests := [];
    }

    /**
     * A click on the button. Without lists it only shows the "create a list
     * first" toast; with lists it opens or closes the picker.
     */
    method Click()
      modifies this`open, this`toasts
      ensures |lists| == 0 ==> toasts == old(toasts) + [NoListsToast] && open == old(open)
      ensures |lists| > 0 ==> toasts == old(toasts) && open == !old(open)
    {
      if |lists| == 0 {
        toasts := toasts + [NoListsToast];
      } else {
        open := !open;
      }
    }

    /** Choosing a list closes the picker first and then asks for the copy. */
    method Select(i: nat)
      requires i < |lists|
      modifies this`open, this`requests
      ensures !open && requests == old(requests) + [(lists[i].id, word)]
    {
      open := false;
      requests := requests + [(lists[i].id, word)];
    }

    method OnResult(result: ActionResult)
      modifies this`toasts
      ensures toasts == old(toasts) + [ResultToast(result)]
    {
      toasts := toasts + [ResultToast(result)];
    }
  }
}
