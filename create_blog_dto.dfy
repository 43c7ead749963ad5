/** The field checks `CreateBlogDto` declares. */
module CreateBlogDtoRules {
  import opened Base
  import opened Validators
  import opened BlogSchema

  datatype CreateBlogDto = CreateBlogDto(title: JsValue, content: JsValue)

  function TitleErrors(title: JsValue): (e: set<string>)
    ensures e == {} <==> title.Str? && title.s != "" && ValidatorLength(title.s) <= 150
    ensures ("Title cannot exceed 150 characters" in e) <==> !MaxLength(title, 150)
  {
    (if IsString(title) then {} else {"title must be a string"})
    + (if IsNotEmpty(title) then {} else {"Title is required"})
    + (if MaxLength(title, 150) then {} else {"Title cannot exceed 150 characters"})
  }

  function ContentErrors(content: JsValue): (e: set<string>)
    ensures e == {} <==> content.Str? && content.s != ""
  {
    (if IsString(content) then {} else {"content must be a string"})
    + (if IsNotEmpty(content) then {} else {"Content is required"})
  }

  /** The messages of the failing checks; empty when the body is accepted. */
  function Errors(dto: CreateBlogDto): (e: set<string>)
    ensures e == {} <==>
      && dto.title.Str? && dto.title.s != "" && ValidatorLength(dto.title.s) <= 150
      && dto.content.Str? && dto.content.s != ""
  {
    TitleErrors(dto.title) + ContentErrors(dto.content)
  }

  /** The checks do not trim: every non-empty whitespace-only title within
      the length limit passes them, and the schema's trimmed `required`
      title then refuses it. */
  lemma BlankTitlePassesChecksNotSchema(title: string, content: string, id: BlogId,
                                        author: UserSchema.UserId, now: int)
    requires title != "" && ValidatorLength(title) <= 150 && content != ""
    requires forall k :: 0 <= k < |title| ==> IsJsWhitespace(title[k])
    ensures Errors(CreateBlogDto(Str(title), Str(content))) == {}
    ensures NewBlog(id, title, content, author, None, now).Err?
  {
    TrimEmptyIffBlank(title);
  }
}
