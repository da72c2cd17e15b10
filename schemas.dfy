/**
 * The input schemas: a comment's content, a new word list, one stored word,
 * and the form that shares a list. Each parse either yields the typed value,
 * with `optional()` fields absent and `default()` fields filled in, or the
 * list of issues found, in field order.
 */
module Schemas {
  import opened Wrappers
  import opened WordForm

  /** A JSON-like input value. */
  datatype Value = Undefined | Null | Str(s: string) | Arr(items: seq<Value>) | Obj(fields: map<string, Value>) | Num(n: int)

  datatype PathKey = Key(name: string) | Index(i: nat)
  datatype IssueKind = InvalidType | TooSmall(message: string) | TooBig(message: string)
  datatype Issue = Issue(path: seq<PathKey>, kind: IssueKind)

  datatype Parsed<T> = Ok(value: T) | Err(issues: seq<Issue>)
  {
    function Issues(): seq<Issue>
    {
      if Ok? then [] else issues
    }
  }

  /** A missing key reads as `undefined`. */
  function Field(fields: map<string, Value>, key: string): Value
  {
    if key in fields then fields[key] else Undefined
  }

  /** `z.string()`. */
  function ParseString(v: Value, path: seq<PathKey>): (r: Parsed<string>)
    ensures r.Ok? <==> v.Str?
    ensures r.Ok? ==> r.value == v.s
    ensures r.Err? ==> r.issues == [Issue(path, InvalidType)]
  {
    if v.Str? then Ok(v.s) else Err([Issue(path, InvalidType)])
  }

  /** `z.string().optional()`: `undefined` is accepted as absent, `null` is not. */
  function ParseOptionalString(v: Value, path: seq<PathKey>): (r: Parsed<Option<string>>)
    ensures r.Ok? <==> v.Undefined? || v.Str?
    ensures r.Ok? ==> (r.value.Some? <==> v.Str?) && (v.Str? ==> r.value.value == v.s)
  {
    if v.Undefined? then Ok(None)
    else if v.Str? then Ok(Some(v.s))
    else Err([Issue(path, InvalidType)])
  }

  /** `z.string().nullable()`: `null` is accepted as absent, `undefined` is not. */
  function ParseNullableString(v: Value, path: seq<PathKey>): (r: Parsed<Option<string>>)
    ensures r.Ok? <==> v.Null? || v.Str?
    ensures r.Ok? ==> (r.value.Some? <==> v.Str?) && (v.Str? ==> r.value.value == v.s)
  {
    if v.Null? then Ok(None)
    else if v.Str? then Ok(Some(v.s))
    else Err([Issue(path, InvalidType)])
  }

  /** `z.string().optional().default("")`. */
  function ParseStringOrEmpty(v: Value, path: seq<PathKey>): (r: Parsed<string>)
    ensures r.Ok? <==> v.Undefined? || v.Str?
    ensures r.Ok? ==> r.value == (if v.Str? then v.s else "")
  {
    if v.Undefined? then Ok("") else ParseString(v, path)
  }

  /** A value that is not an object fails the object schema as a whole. */
  function NotAnObject<T>(): Parsed<T>
  {
    Err([Issue([], InvalidType)])
  }

  // Comments

  const CommentMax := 500
  const CommentEmptyMessage := "댓글을 입력해주세요"
  const CommentTooLongMessage := "댓글은 500자를 넘을 수 없습니다"

  /** `content: z.string().min(1, …).max(500, …)`; nothing is trimmed. */
  function ParseCommentContent(v: Value): (r: Parsed<string>)
    ensures r.Ok? <==> v.Str? && 1 <= |v.s| <= CommentMax
    ensures r.Ok? ==> r.value == v.s
    ensures v.Str? && |v.s| == 0 ==> r == Err([Issue([Key("content")], TooSmall(CommentEmptyMessage))])
    ensures v.Str? && |v.s| > CommentMax ==> r == Err([Issue([Key("content")], TooBig(CommentTooLongMessage))])
  {
    var path := [Key("content")];
    match ParseString(v, path)
    case Err(issues) => Err(issues)
    case Ok(s) =>
      if |s| < 1 then Err([Issue(path, TooSmall(CommentEmptyMessage))])
      else if |s| > CommentMax then Err([Issue(path, TooBig(CommentTooLongMessage))])
      else Ok(s)
  }

  /** `commentCreateSchema`. */
  function ParseCommentCreate(v: Value): (r: Parsed<string>)
    ensures r.Ok? <==> v.Obj? && Field(v.fields, "content").Str? && 1 <= |Field(v.fields, "content").s| <= CommentMax
  {
    if v.Obj? then ParseCommentContent(Field(v.fields, "content")) else NotAnObject()
  }

  /** White space is content: a comment of one space is accepted as it is. */
  lemma BlankCommentAccepted()
    ensures ParseCommentCreate(Obj(map["content" := Str(" ")])) == Ok(" ")
  {
    assert Field(map["content" := Str(" ")], "content") == Str(" ");
  }

  // Word lists

  const TitleEmptyMessage := "단어장 제목을 입력해주세요"

  /** What `wordListCreateSchema` yields. */
  datatype CreateInput = CreateInput(title: string, description: Option<string>, words: seq<WordRow>)

  /** One item of `words`: each text field may be missing and then becomes "". */
  function ParseWordItem(v: Value, path: seq<PathKey>): (r: Parsed<WordRow>)
    ensures r.Ok? <==> (v.Obj?
      && (Field(v.fields, "english").Undefined? || Field(v.fields, "english").Str?)
      && (Field(v.fields, "korean").Undefined? || Field(v.fields, "korean").Str?)
      && (Field(v.fields, "example").Undefined? || Field(v.fields, "example").Str?))
  {
    if !v.Obj? then Err([Issue(path, InvalidType)])
    else
      var e := ParseStringOrEmpty(Field(v.fields, "english"), path + [Key("english")]);
      var k := ParseStringOrEmpty(Field(v.fields, "korean"), path + [Key("korean")]);
      var x := ParseStringOrEmpty(Field(v.fields, "example"), path + [Key("example")]);
      if e.Ok? && k.Ok? && x.Ok? then Ok(WordRow(e.value, k.value, x.value))
      else Err(e.Issues() + k.Issues() + x.Issues())
  }

  /** The items of `words` from index `from` on. */
  function ParseWordItems(items: seq<Value>, from: nat): (r: Parsed<seq<WordRow>>)
    requires from <= |items|
    ensures r.Ok? <==> forall i :: from <= i < |items| ==> ParseWordItem(items[i], [Key("words"), Index(i)]).Ok?
    ensures r.Ok? ==> |r.value| == |items| - from
    ensures r.Ok? ==> forall k :: 0 <= k < |r.value| ==>
      r.value[k] == ParseWordItem(items[from + k], [Key("words"), Index(from + k)]).value
    decreases |items| - from
  {
    if from == |items| then Ok([])
    else
      var head := ParseWordItem(items[from], [Key("words"), Index(from)]);
      var rest := ParseWordItems(items, from + 1);
      if head.Ok? && rest.Ok? then Ok([head.value] + rest.value)
      else Err(head.Issues() + rest.Issues())
  }

  /** `words: z.array(…).default([])`. */
  function ParseWords(v: Value): (r: Parsed<seq<WordRow>>)
    ensures v.Undefined? ==> r == Ok([])
    ensures r.Ok? <==> (v.Undefined?
      || (v.Arr? && forall i :: 0 <= i < |v.items| ==> ParseWordItem(v.items[i], [Key("words"), Index(i)]).Ok?))
    ensures r.Ok? && v.Arr? ==> (|r.value| == |v.items|
      && forall i :: 0 <= i < |v.items| ==> r.value[i] == ParseWordItem(v.items[i], [Key("words"), Index(i)]).value)
  {
    if v.Undefined? then Ok([])
    else if v.Arr? then ParseWordItems(v.items, 0)
    else Err([Issue([Key("words")], InvalidType)])
  }

  /** `title: z.string().min(1, …)`. */
  function ParseTitle(v: Value): (r: Parsed<string>)
    ensures r.Ok? <==> v.Str? && v.s != ""
    ensures v == Str("") ==> r == Err([Issue([Key("title")], TooSmall(TitleEmptyMessage))])
  {
    match ParseString(v, [Key("title")])
    case Err(issues) => Err(issues)
    case Ok(s) => if |s| < 1 then Err([Issue([Key("title")], TooSmall(TitleEmptyMessage))]) else Ok(s)
  }

  /** `wordListCreateSchema`. */
  function ParseWordListCreate(v: Value): (r: Parsed<CreateInput>)
    ensures r.Ok? <==> (v.Obj?
      && Field(v.fields, "title").Str? && Field(v.fields, "title").s != ""
      && (Field(v.fields, "description").Undefined? || Field(v.fields, "description").Str?)
      && ParseWords(Field(v.fields, "words")).Ok?)
    ensures r.Ok? ==> r.value.title == Field(v.fields, "title").s && r.value.title != ""
    ensures r.Ok? ==> (r.value.description ==
      if Field(v.fields, "description").Str? then Some(Field(v.fields, "description").s) else None)
    ensures r.Ok? ==> r.value.words == ParseWords(Field(v.fields, "words")).value
  {
    if !v.Obj? then NotAnObject()
    else
      var t := ParseTitle(Field(v.fields, "title"));
      var d := ParseOptionalString(Field(v.fields, "description"), [Key("description")]);
      var w := ParseWords(Field(v.fields, "words"));
      if t.Ok? && d.Ok? && w.Ok? then Ok(CreateInput(t.value, d.value, w.value))
      else Err(t.Issues() + d.Issues() + w.Issues())
  }

  /** An empty title is rejected with its own message, whatever the other fields hold. */
  lemma EmptyTitleRejected(fields: map<string, Value>)
    requires Field(fields, "title") == Str("")
    ensures ParseWordListCreate(Obj(fields)).Err?
    ensures Issue([Key("title")], TooSmall(TitleEmptyMessage)) in ParseWordListCreate(Obj(fields)).issues
  {
  }

  /** Only a title is required: the description may be missing and the words then default to none. */
  lemma TitleAloneSuffices(title: string)
    requires title != ""
    ensures ParseWordListCreate(Obj(map["title" := Str(title)])) == Ok(CreateInput(title, None, []))
  {
    var fields := map["title" := Str(title)];
    assert Field(fields, "title") == Str(title);
    assert Field(fields, "description") == Undefined;
    assert Field(fields, "words") == Undefined;
  }

  /** An empty word object is the blank row. */
  lemma EmptyWordIsBlank(path: seq<PathKey>)
    ensures ParseWordItem(Obj(map[]), path) == Ok(BlankRow)
  {
    assert Field(map[], "english") == Undefined;
    assert Field(map[], "korean") == Undefined;
    assert Field(map[], "example") == Undefined;
  }

  /** What `wordListWordSchema` yields. */
  datatype StoredWord = StoredWord(english: string, korean: string, pronunciation: Option<string>,
                                   level: Option<string>, example: Option<string>)

  predicate StrOrNull(v: Value)
  {
    v.Str? || v.Null?
  }

  /** `wordListWordSchema`: english and korean are strings; pronunciation, level and example are strings or `null`. */
  function ParseWordListWord(v: Value): (r: Parsed<StoredWord>)
    ensures r.Ok? <==> (v.Obj? && Field(v.fields, "english").Str? && Field(v.fields, "korean").Str?
      && StrOrNull(Field(v.fields, "pronunciation")) && StrOrNull(Field(v.fields, "level"))
      && StrOrNull(Field(v.fields, "example")))
    ensures r.Ok? ==> r.value.english == Field(v.fields, "english").s && r.value.korean == Field(v.fields, "korean").s
  {
    if !v.Obj? then NotAnObject()
    else
      var e := ParseString(Field(v.fields, "english"), [Key("english")]);
      var k := ParseString(Field(v.fields, "korean"), [Key("korean")]);
      var p := ParseNullableString(Field(v.fields, "pronunciation"), [Key("pronunciation")]);
      var l := ParseNullableString(Field(v.fields, "level"), [Key("level")]);
      var x := ParseNullableString(Field(v.fields, "example"), [Key("example")]);
      if e.Ok? && k.Ok? && p.Ok? && l.Ok? && x.Ok? then Ok(StoredWord(e.value, k.value, p.value, l.value, x.value))
      else Err(e.Issues() + k.Issues() + p.Issues() + l.Issues() + x.Issues())
  }

  /** What `addToSharedWordListSchema` yields. */
  datatype ShareInput = ShareInput(name: string, description: Option<string>, tags: seq<string>)

  /** The items of `tags` from index `from` on, each a string. */
  function ParseTagItems(items: seq<Value>, from: nat): (r: Parsed<seq<string>>)
    requires from <= |items|
    ensures r.Ok? <==> forall i :: from <= i < |items| ==> items[i].Str?
    ensures r.Ok? ==> |r.value| == |items| - from && forall i :: from <= i < |items| ==> r.value[i - from] == items[i].s
    decreases |items| - from
  {
    if from == |items| then Ok([])
    else
      var head := ParseString(items[from], [Key("tags"), Index(from)]);
      var rest := ParseTagItems(items, from + 1);
      if head.Ok? && rest.Ok? then Ok([head.value] + rest.value)
      else Err(head.Issues() + rest.Issues())
  }

  /** `addToSharedWordListSchema`: a string name, an optional description and an array of strings as tags. */
  function ParseShare(v: Value): (r: Parsed<ShareInput>)
    ensures r.Ok? <==> (v.Obj? && Field(v.fields, "name").Str?
      && (Field(v.fields, "description").Undefined? || Field(v.fields, "description").Str?)
      && Field(v.fields, "tags").Arr? && forall t :: t in Field(v.fields, "tags").items ==> t.Str?)
  {
    if !v.Obj? then NotAnObject()
    else
      var n := ParseString(Field(v.fields, "name"), [Key("name")]);
      var d := ParseOptionalString(Field(v.fields, "description"), [Key("description")]);
      var tv := Field(v.fields, "tags");
      var t := if tv.Arr? then ParseTagItems(tv.items, 0) else Err([Issue([Key("tags")], InvalidType)]);
      if n.Ok? && d.Ok? && t.Ok? then Ok(ShareInput(n.value, d.value, t.value))
      else Err(n.Issues() + d.Issues() + t.Issues())
  }
}
