/** normalizeDraftInput, and the article that CreateDraft makes of its result. internal/articles/service.go. */
module DraftInput {
  import opened Outcomes
  import opened ArticleModel
  import opened Texts
  import D = Documents
  import C = Compiler

  /** What a caller sends: the texts as typed, and the document. */
  datatype Input = Input(slug: string, title: string, summary: string, area: string, coverId: string, root: D.Node)

  /** The texts without the white space around them, the slug normalised, the document compiled; or a validation error. */
  method NormalizeDraftInput(safe: D.Href, input: Input, size: string -> nat) returns (r: Result<(DraftFields, C.Body)>)
    ensures r.Ok? <==> Normalized(input.slug).Ok? && C.Compiles(safe, input.root, size)
    ensures r.Err? ==> r.error == Validation
    ensures r.Ok? ==>
              var fields := r.value.0;
              && Ok(fields.slug) == Normalized(input.slug)
              && TrimmedOf(input.title, fields.title) && TrimmedOf(input.summary, fields.summary)
              && TrimmedOf(input.area, fields.area) && TrimmedOf(input.coverId, fields.coverId)
    ensures r.Ok? ==> r.value.1 == C.Body(D.Html(safe, input.root, ""), TrimSpace(D.Plain(input.root)))
  {
    hide TrimmedOf;
    hide Normalized;
    hide C.Accepts;
    var slug := NormalizeSlug(input.slug);
    if slug.Err? {
      NormalizedError(input.slug);
      return Err(slug.error);
    }
    TrimSpaceIs(input.title);
    TrimSpaceIs(input.summary);
    TrimSpaceIs(input.area);
    TrimSpaceIs(input.coverId);
    var fields := DraftFields(slug.value, TrimSpace(input.title), TrimSpace(input.summary), TrimSpace(input.area), TrimSpace(input.coverId));
    var compiled := C.CompileDocument(safe, input.root, size);
    if compiled.Err? {
      return Err(compiled.error);
    }
    return Ok((fields, compiled.value));
  }

  lemma NormalizedError(s: string)
    ensures Normalized(s).Err? ==> Normalized(s).error == Validation
  {
  }

  /** CreateDraft up to the upload: a draft with these texts, created now, if it is valid. */
  method NewDraft(id: Id, fields: DraftFields, now: Time) returns (r: Result<Article>)
    ensures r.Ok? <==>
              && !Blank(id) && now != ZERO_TIME && IsSlug(fields.slug)
              && Trimmed(fields.title) && 5 <= |fields.title| <= 160 && Trimmed(fields.summary) && 20 <= |fields.summary| <= 320
              && ValidArea(fields.area) && ValidCoverId(fields.coverId)
    ensures r.Err? ==> r.error == Validation
    ensures r.Ok? ==>
              var a := r.value;
              && ValidArticle(a) && a.id == id && a.status == Draft && a.createdAt == now == a.updatedAt
              && a.slug == fields.slug && a.title == fields.title && a.summary == fields.summary && a.area == fields.area && a.coverId == fields.coverId
              && a.draftBody == None == a.publishedBody && a.published == None && a.firstPublishedAt == None == a.lastPublishedAt && a.deletedAt == None
  {
    NormalizedFixedPoints(fields.slug);
    hide Blank;
    hide Trimmed;
    hide IsSlug;
    hide Normalized;
    hide ValidArea;
    hide ValidCoverId;
    var article := Article(id, fields.slug, fields.title, fields.summary, fields.area, fields.coverId, Draft,
                           None, None, None, None, None, now, now, None);
    if !ValidArticle(article) {
      return Err(Validation);
    }
    return Ok(article);
  }
}
