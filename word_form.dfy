/** The "create a word list" form: its rows of words and what a submit sends. */
module WordForm {
  import opened Wrappers
  import opened Seqs
  import opened Text

  datatype WordRow = WordRow(english: string, korean: string, example: string)

  /** The form values; `words` is optional in the schema, so it may be undefined. */
  datatype FormValues = FormValues(title: string, description: Option<string>, words: Option<seq<WordRow>>)

  /** A row is submitted when both its english and its korean are non-blank after `trim`. */
  predicate Filled(w: WordRow)
  {
    Trim(w.english) != "" && Trim(w.korean) != ""
  }

  /** `values.words?.filter(...) || []`. */
  function FilledWords(words: Option<seq<WordRow>>): (r: seq<WordRow>)
    ensures words.None? ==> r == []
    ensures forall w :: w in r <==> words.Some? && w in words.value && Filled(w)
  {
    if words.None? then [] else Filter(words.value, Filled)
  }

  /** `{ ...values, words: filteredWords }`: everything but `words` is passed on as it is. */
  function ToSubmit(values: FormValues): (r: FormValues)
    ensures r.title == values.title && r.description == values.description
    ensures r.words == Some(FilledWords(values.words))
  {
    values.(words := Some(FilledWords(values.words)))
  }

  /** The submitted words are the filled rows, in the order the user entered them. */
  lemma SubmittedInOrder(values: FormValues)
    ensures values.words.Some? ==> IsSubsequence(ToSubmit(values).words.value, values.words.value)
  {
    if values.words.Some? {
      FilterIsSubsequence(values.words.value, Filled);
    }
  }

  /** Filtering the submitted values again changes nothing. */
  lemma SubmitIdempotent(values: FormValues)
    ensures ToSubmit(ToSubmit(values)) == ToSubmit(values)
  {
    if values.words.Some? {
      FilterIdempotent(values.words.value, Filled);
    }
  }

  /** A row whose english or korean is only white space is never submitted. */
  lemma BlankRowDropped(values: FormValues, w: WordRow)
    requires AllSpace(w.english) || AllSpace(w.korean)
    ensures w !in ToSubmit(values).words.value
  {
    TrimEmptyIffAllSpace(w.english);
    TrimEmptyIffAllSpace(w.korean);
  }

  const BlankRow := WordRow("", "", "")
  const InitialRows := 5

  /** `defaultValues`: an empty title and description and five blank rows. */
  function Defaults(): (r: FormValues)
    ensures r.words.Some? && |r.words.value| == InitialRows
  {
    FormValues("", Some(""), Some(seq(InitialRows, _ => BlankRow)))
  }

  /** Submitting the untouched form sends no words. */
  lemma UntouchedFormSendsNoWords()
    ensures ToSubmit(Defaults()).words == Some([])
  {
    var rows := Defaults().words.value;
    assert !Filled(BlankRow);
    FilterNone(rows, Filled);
  }

  /** The rows being edited (`useFieldArray`). */
  class WordRows {
    var rows: seq<WordRow>

    /** The form always shows at least one row. */
    predicate Valid()
      reads this
    {
      |rows| >= 1
    }

    constructor ()
      ensures Valid() && rows == Defaults().words.value
    {
      rows := Defaults().words.value;
    }

    /** The remove button of a row exists only while there is more than one row. */
    predicate CanRemove()
      reads this
    {
      |rows| > 1
    }

    /** The add button appends a blank row. */
    method Append()
      requires Valid()
      modifies this
      ensures Valid() && rows == old(rows) + [BlankRow]
    {
      rows := rows + [BlankRow];
    }

    /** `remove(index)`, reachable only through a shown remove button. */
    method Remove(index: nat)
      requires Valid() && CanRemove() && index < |rows|
      modifies this
      ensures Valid() && rows == old(rows[..index] + rows[index + 1..])
    {
      rows := rows[..index] + rows[index + 1..];
    }
  }
}
