/**
  The article entity: internal/articles/model.go, and the pure parts of
  internal/articles/service.go and internal/storage/azure/articles.go that say
  which slugs an article reserves.
 */
module ArticleModel {
  import opened Outcomes

  type Id = string
  type Slug = string
  type Time = int  // Unix nanoseconds

  /** time.Time{}: the first instant of year 1. */
  const ZERO_TIME: Time := -62135596800000000000

  datatype Status = Draft | Published | Withdrawn | OtherStatus(text: string)

  datatype BodyRef = BodyRef(blobName: string, version: string, savedAt: Time)

  datatype Metadata = Metadata(
    slug: Slug, title: string, summary: string, area: string, coverId: string,
    historical: seq<Slug>)

  /** An article without its ETag; rows pair it with one. */
  datatype Article = Article(
    id: Id, slug: Slug, title: string, summary: string, area: string, coverId: string,
    status: Status, draftBody: Option<BodyRef>, publishedBody: Option<BodyRef>,
    published: Option<Metadata>, firstPublishedAt: Option<Time>, lastPublishedAt: Option<Time>,
    createdAt: Time, updatedAt: Time, deletedAt: Option<Time>)

  /** The editable part of an article, as normalizeDraftInput returns it. */
  datatype DraftFields = DraftFields(slug: Slug, title: string, summary: string, area: string, coverId: string)

  // ----- Strings -----

  predicate IsSpace(c: char) {
    c == ' ' || '\t' <= c <= '\r' || c == '\U{0085}' || c == '\U{00A0}' || c == '\U{1680}' ||
    '\U{2000}' <= c <= '\U{200A}' || c == '\U{2028}' || c == '\U{2029}' || c == '\U{202F}' ||
    c == '\U{205F}' || c == '\U{3000}'
  }

  predicate IsAsciiSpace(c: char) {
    c == ' ' || '\t' <= c <= '\r'
  }

  /** strings.TrimSpace(s) == s */
  predicate Trimmed(s: string) {
    s == "" || (!IsSpace(s[0]) && !IsSpace(s[|s| - 1]))
  }

  predicate Blank(s: string) {
    forall i | 0 <= i < |s| :: IsSpace(s[i])
  }

  function TrimLeft(s: string): (r: string)
    ensures |r| <= |s|
    ensures r != "" ==> !IsSpace(r[0])
    ensures s != "" && !IsSpace(s[0]) ==> r == s
  {
    if s == "" then "" else if IsSpace(s[0]) then TrimLeft(s[1..]) else s
  }

  function TrimRight(s: string): (r: string)
    ensures |r| <= |s|
    ensures r != "" ==> r[0] == s[0] && !IsSpace(r[|r| - 1])
    ensures s != "" && !IsSpace(s[|s| - 1]) ==> r == s
  {
    if s == "" then "" else if IsSpace(s[|s| - 1]) then TrimRight(s[..|s| - 1]) else s
  }

  function TrimSpace(s: string): (r: string)
    ensures Trimmed(r)
    ensures Trimmed(s) ==> r == s
  {
    TrimRight(TrimLeft(s))
  }

  // ----- NormalizeSlug -----

  predicate IsUpper(c: char) { 'A' <= c <= 'Z' }

  predicate IsLowerOrDigit(c: char) { 'a' <= c <= 'z' || '0' <= c <= '9' }

  function ToLower(c: char): char
    requires IsUpper(c)
  {
    (c as int + 32) as char
  }

  /** One turn of the loop over the runes of the trimmed value; None is the unsupported character. */
  function NormalizeStep(out: string, pending: bool, c: char): Option<(string, bool)> {
    var sep := if pending && |out| > 0 then out + "-" else out;
    if IsUpper(c) then Some((sep + [ToLower(c)], false))
    else if IsLowerOrDigit(c) then Some((sep + [c], false))
    else if c == '-' || IsAsciiSpace(c) then Some((out, |out| > 0))
    else None
  }

  function NormalizeFrom(s: string, out: string, pending: bool): Option<string>
    decreases |s|
  {
    if s == "" then Some(out)
    else
      match NormalizeStep(out, pending, s[0])
      case None => None
      case Some(next) => NormalizeFrom(s[1..], next.0, next.1)
  }

  /** What NormalizeSlug returns. */
  function Normalized(value: string): Result<Slug> {
    match NormalizeFrom(TrimSpace(value), "", false)
    case None => Err(Validation)
    case Some(out) => if |out| < 3 || |out| > 100 then Err(Validation) else Ok(out)
  }

  method NormalizeSlug(value: string) returns (result: Result<Slug>)
    ensures result == Normalized(value)
  {
    var trimmed := TrimSpace(value);
    var out, pending := "", false;
    for i := 0 to |trimmed|
      invariant NormalizeFrom(trimmed[i..], out, pending) == NormalizeFrom(trimmed, "", false)
    {
      var c := trimmed[i];
      assert trimmed[i..][0] == c && trimmed[i..][1..] == trimmed[i + 1..];
      if IsUpper(c) || IsLowerOrDigit(c) {
        if pending && |out| > 0 {
          out := out + "-";
        }
        pending := false;
        out := out + [if IsUpper(c) then ToLower(c) else c];
      } else if c == '-' || IsAsciiSpace(c) {
        pending := |out| > 0;
      } else {
        return Err(Validation);
      }
    }
    if |out| < 3 || |out| > 100 {
      return Err(Validation);
    }
    return Ok(out);
  }

  /** Lower-case words of letters and digits, joined by single hyphens. */
  predicate Words(s: string) {
    && (forall i | 0 <= i < |s| :: IsLowerOrDigit(s[i]) || s[i] == '-')
    && (s != "" ==> s[0] != '-' && s[|s| - 1] != '-')
    && (forall i | 0 < i < |s| :: s[i - 1] == '-' ==> s[i] != '-')
  }

  /** The normal form that stored slugs must have. */
  predicate IsSlug(s: string) {
    3 <= |s| <= 100 && Words(s)
  }

  lemma NormalizeStepKeepsWords(out: string, pending: bool, c: char)
    requires Words(out)
    ensures NormalizeStep(out, pending, c).Some? ==> Words(NormalizeStep(out, pending, c).value.0)
  {
  }

  lemma {:induction false} NormalizeFromWords(s: string, out: string, pending: bool)
    requires Words(out)
    ensures NormalizeFrom(s, out, pending).Some? ==> Words(NormalizeFrom(s, out, pending).value)
    decreases |s|
  {
    if s != "" && NormalizeStep(out, pending, s[0]).Some? {
      NormalizeStepKeepsWords(out, pending, s[0]);
      var next := NormalizeStep(out, pending, s[0]).value;
      NormalizeFromWords(s[1..], next.0, next.1);
    }
  }

  /** Every accepted slug is in normal form. */
  lemma NormalizedIsSlug(value: string)
    ensures Normalized(value).Ok? ==> IsSlug(Normalized(value).value)
  {
    NormalizeFromWords(TrimSpace(value), "", false);
  }

  lemma {:induction false} NormalizeFixed(s: string, out: string, pending: bool)
    requires Words(if pending then out + "-" + s else out + s)
    requires pending ==> out != "" && s != ""
    ensures NormalizeFrom(s, out, pending) == Some(if pending then out + "-" + s else out + s)
    decreases |s|
  {
    var whole := if pending then out + "-" + s else out + s;
    if s == "" {
      assert whole == out;
    } else if s[0] == '-' {
      var at := if pending then |out| + 1 else |out|;
      var before := if pending then '-' else if out == "" then ' ' else out[|out| - 1];
      assert whole[at] == '-' && (at > 0 ==> whole[at - 1] == before);
      assert !pending && out != "" && at != |whole| - 1;
      assert out + "-" + s[1..] == whole;
      NormalizeFixed(s[1..], out, true);
    } else {
      var sep := if pending then out + "-" else out;
      assert whole[|sep|] == s[0];
      assert sep + [s[0]] + s[1..] == whole;
      NormalizeFixed(s[1..], sep + [s[0]], false);
    }
  }

  /** The check "normalized == slug" of Article.Validate accepts exactly the normal forms. */
  lemma NormalizedFixedPoints(s: string)
    ensures Normalized(s) == Ok(s) <==> IsSlug(s)
  {
    hide Words;
    hide NormalizeFrom;
    hide TrimSpace;
    NormalizedIsSlug(s);
    if IsSlug(s) {
      WordsTrimmed(s);
      assert "" + s == s;
      NormalizeFixed(s, "", false);
    }
  }

  lemma WordsTrimmed(s: string)
    requires Words(s)
    ensures Trimmed(s)
  {
    assert s != "" ==> IsLowerOrDigit(s[0]) && IsLowerOrDigit(s[|s| - 1]);
  }

  /** Normalising twice is normalising once. */
  lemma NormalizeIdempotent(value: string)
    requires Normalized(value).Ok?
    ensures Normalized(Normalized(value).value) == Normalized(value)
  {
    NormalizedIsSlug(value);
    NormalizedFixedPoints(Normalized(value).value);
  }

  // ----- Article.Validate -----

  predicate ValidArea(area: string) {
    area in {
      "famiglia-e-persone", "successioni-e-donazioni", "obbligazioni-e-contratti", "recupero-crediti",
      "risarcimento-danni", "diritti-reali", "diritto-penale", "diritto-tributario" }
  }

  /** webassets.ValidCoverID: empty, or one of the twelve embedded covers. */
  predicate ValidCoverId(id: string) {
    id in {
      "", "hero-architecture", "approach-library", "family-objects", "succession-seal", "contracts-pen",
      "debt-ledger", "damages-road", "property-key", "criminal-threshold", "tax-ledger",
      "article-notebook", "contact-entrance" }
  }

  predicate ValidLength(s: string, minimum: nat, maximum: nat) {
    Trimmed(s) && minimum <= |s| <= maximum
  }

  predicate ValidRef(ref: BodyRef) {
    !Blank(ref.blobName) && !Blank(ref.version) && ref.savedAt != ZERO_TIME
  }

  predicate ValidText(slug: Slug, title: string, summary: string, area: string, coverId: string) {
    && Normalized(slug) == Ok(slug)
    && ValidLength(title, 5, 160)
    && ValidLength(summary, 20, 320)
    && ValidArea(area)
    && ValidCoverId(coverId)
  }

  predicate Distinct(slugs: seq<Slug>) {
    forall i, j | 0 <= i < j < |slugs| :: slugs[i] != slugs[j]
  }

  predicate ValidMetadata(m: Metadata) {
    && ValidText(m.slug, m.title, m.summary, m.area, m.coverId)
    && (forall i | 0 <= i < |m.historical| ::
          Normalized(m.historical[i]) == Ok(m.historical[i]) && m.historical[i] != m.slug)
    && Distinct(m.historical)
  }

  predicate ValidPublication(a: Article) {
    match a.status
    case Draft => a.publishedBody.None? && a.published.None? && a.firstPublishedAt.None? && a.lastPublishedAt.None?
    case Published => a.publishedBody.Some? && a.published.Some? && a.firstPublishedAt.Some? && a.lastPublishedAt.Some?
    case Withdrawn => a.publishedBody.Some? && a.published.Some? && a.firstPublishedAt.Some? && a.lastPublishedAt.Some?
    case OtherStatus(_) => false
  }

  predicate ValidTimes(a: Article) {
    && a.createdAt != ZERO_TIME && a.updatedAt != ZERO_TIME
    && a.createdAt <= a.updatedAt
    && (a.firstPublishedAt.Some? ==> a.createdAt <= a.firstPublishedAt.value <= a.updatedAt)
    && (a.lastPublishedAt.Some? ==>
          && a.firstPublishedAt.Some?
          && a.firstPublishedAt.value <= a.lastPublishedAt.value <= a.updatedAt)
  }

  /** Article.Validate() == nil */
  predicate ValidArticle(a: Article) {
    && !Blank(a.id)
    && ValidText(a.slug, a.title, a.summary, a.area, a.coverId)
    && ValidTimes(a)
    && (a.draftBody.Some? ==> ValidRef(a.draftBody.value))
    && (a.publishedBody.Some? ==> ValidRef(a.publishedBody.value))
    && (a.published.Some? ==> ValidMetadata(a.published.value))
    && ValidPublication(a)
  }

  predicate ValidStatus(s: Status) { !s.OtherStatus? }

  /** ValidateTransition(from, to) == nil */
  predicate ValidTransition(from: Status, to: Status) {
    && ValidStatus(from) && ValidStatus(to)
    && (from == to || (from == Draft && to == Published) || (from == Published && to == Withdrawn) ||
        (from == Withdrawn && to == Published))
  }

  // ----- What the service writes -----

  /** nextPublishedMetadata: the loop over previous.HistoricalSlugs that drops repeats. */
  function Deduplicated(slugs: seq<Slug>, kept: seq<Slug>): (r: seq<Slug>)
    ensures forall s :: s in r <==> s in slugs || s in kept
    decreases |slugs|
  {
    if slugs == [] then kept
    else Deduplicated(slugs[1..], if slugs[0] in kept then kept else kept + [slugs[0]])
  }

  function NextHistory(previous: Option<Metadata>, slug: Slug): seq<Slug> {
    if previous.None? then []
    else
      var history := Deduplicated(previous.value.historical, []);
      if previous.value.slug != slug && previous.value.slug !in history
      then history + [previous.value.slug] else history
  }

  function NextMetadata(previous: Option<Metadata>, draft: Article): Metadata {
    Metadata(draft.slug, draft.title, draft.summary, draft.area, draft.coverId, NextHistory(previous, draft.slug))
  }

  method NextPublishedMetadata(previous: Option<Metadata>, draft: Article) returns (m: Metadata)
    ensures m == NextMetadata(previous, draft)
  {
    var history: seq<Slug> := [];
    if previous.Some? {
      var seen: set<Slug> := {};
      var slugs := previous.value.historical;
      for i := 0 to |slugs|
        invariant Deduplicated(slugs[i..], history) == Deduplicated(slugs, [])
        invariant forall s :: s in seen <==> s in history
      {
        assert slugs[i..][0] == slugs[i] && slugs[i..][1..] == slugs[i + 1..];
        if slugs[i] !in seen {
          history := history + [slugs[i]];
          seen := seen + {slugs[i]};
        }
      }
      if previous.value.slug != draft.slug && previous.value.slug !in seen {
        history := history + [previous.value.slug];
      }
    }
    return Metadata(draft.slug, draft.title, draft.summary, draft.area, draft.coverId, history);
  }

  /** SaveDraft's update of the article it read. */
  function Saved(stored: Article, fields: DraftFields, ref: BodyRef, now: Time): Article {
    stored.(slug := fields.slug, title := fields.title, summary := fields.summary, area := fields.area,
            coverId := fields.coverId, draftBody := Some(ref), updatedAt := now)
  }

  /** Publish's update of the article it read. */
  function PublishedFrom(stored: Article, now: Time): Article {
    stored.(status := Published, publishedBody := stored.draftBody,
            published := Some(NextMetadata(stored.published, stored)),
            firstPublishedAt := if stored.firstPublishedAt.None? then Some(now) else stored.firstPublishedAt,
            lastPublishedAt := Some(now), updatedAt := now)
  }

  /** Withdraw's update of the article it read. */
  function WithdrawnFrom(stored: Article, now: Time): Article {
    stored.(status := Withdrawn, updatedAt := now)
  }

  // ----- Reserved slugs -----

  /** The slug is the canonical or a historical slug of the publication. */
  predicate PublicSlug(a: Article, s: Slug) {
    a.published.Some? && (s == a.published.value.slug || s in a.published.value.historical)
  }

  /** slugRecord without its ETag; target is "" when there is none. */
  datatype SlugRecord = SlugRecord(slug: Slug, articleId: Id, target: string)

  function Canonical(a: Article): string {
    if a.published.None? then "" else a.published.value.slug
  }

  function PublishedSlugs(a: Article): seq<Slug> {
    if a.published.None? then [] else [a.published.value.slug] + a.published.value.historical
  }

  /** slugRecordMap */
  function SlugMap(a: Article): (m: map<Slug, SlugRecord>)
    ensures forall s :: s in m <==> s == a.slug || PublicSlug(a, s)
    ensures forall s | s in m :: m[s] == SlugRecord(s, a.id, if PublicSlug(a, s) then Canonical(a) else "")
  {
    var published := PublishedSlugs(a);
    map s | s in [a.slug] + published :: SlugRecord(s, a.id, if s in published then Canonical(a) else "")
  }

  method SlugRecordMap(a: Article) returns (m: map<Slug, SlugRecord>)
    ensures m == SlugMap(a)
  {
    var canonical := Canonical(a);
    m := map[a.slug := SlugRecord(a.slug, a.id, "")];
    if a.published.Some? {
      var slugs := [a.published.value.slug] + a.published.value.historical;
      for i := 0 to |slugs|
        invariant forall s :: s in m <==> s == a.slug || s in slugs[..i]
        invariant forall s | s in m :: m[s] == SlugRecord(s, a.id, if s in slugs[..i] then canonical else "")
      {
        m := m[slugs[i] := SlugRecord(slugs[i], a.id, canonical)];
      }
      assert slugs[..|slugs|] == slugs;
    }
  }

  /** validatePermanentPublishedSlugs(stored, updated) == nil, and otherwise its error. */
  function PermanenceError(stored: Article, updated: Article): Option<Error> {
    if stored.published.None? then None
    else
      var prior := stored.published.value;
      if updated.slug in prior.historical then Some(SlugTaken)
      else if updated.published.None? then Some(Validation)
      else
        var next := updated.published.value;
        if next.slug in prior.historical then Some(SlugTaken)
        else if exists s | s in prior.historical :: s !in next.historical then Some(Validation)
        else if prior.slug != next.slug && prior.slug !in next.historical then Some(Validation)
        else None
  }

  /** An accepted update keeps every public slug public. */
  lemma PermanenceKeepsPublicSlugs(stored: Article, updated: Article, s: Slug)
    requires PermanenceError(stored, updated).None?
    requires PublicSlug(stored, s)
    ensures PublicSlug(updated, s)
  {
  }

  /**
    What the permanence check lets through: every update of an article that was
    never published, and otherwise those that keep all public slugs public and
    turn no alias into the draft's or the publication's slug.
   */
  lemma PermanenceExactly(stored: Article, updated: Article)
    ensures stored.published.None? ==> PermanenceError(stored, updated).None?
    ensures stored.published.Some? ==>
              var aliases := stored.published.value.historical;
              var takes := updated.slug in aliases || (updated.published.Some? && updated.published.value.slug in aliases);
              var keeps := forall x | PublicSlug(stored, x) :: PublicSlug(updated, x);
              PermanenceError(stored, updated) == if takes then Some(SlugTaken) else if keeps then None else Some(Validation)
  {
    if stored.published.Some? {
      assert PublicSlug(stored, stored.published.value.slug);
      assert forall x | x in stored.published.value.historical :: PublicSlug(stored, x);
    }
  }

  /** So a save passes exactly unless its slug is an alias, and a withdrawal unless the draft's slug is one. */
  lemma SavesPass(a: Article, fields: DraftFields, ref: BodyRef, now: Time)
    requires a.published.Some? ==> ValidMetadata(a.published.value)
    ensures PermanenceError(a, Saved(a, fields, ref, now)) ==
            if a.published.Some? && fields.slug in a.published.value.historical then Some(SlugTaken) else None
    ensures PermanenceError(a, WithdrawnFrom(a, now)) ==
            if a.published.Some? && a.slug in a.published.value.historical then Some(SlugTaken) else None
  {
    hide ValidText;
    PermanenceExactly(a, Saved(a, fields, ref, now));
    PermanenceExactly(a, WithdrawnFrom(a, now));
    if a.published.Some? {
      CanonicalNoAlias(a.published.value);
    }
  }

  lemma CanonicalNoAlias(m: Metadata)
    requires ValidMetadata(m)
    ensures m.slug !in m.historical
  {
    hide ValidText;
    hide Normalized;
  }

  lemma {:induction false} DeduplicatedDistinct(slugs: seq<Slug>, kept: seq<Slug>)
    requires Distinct(kept)
    ensures Distinct(Deduplicated(slugs, kept))
    decreases |slugs|
  {
    if slugs != [] {
      DeduplicatedDistinct(slugs[1..], if slugs[0] in kept then kept else kept + [slugs[0]]);
    }
  }

  /** The history of the next publication: the old one, then the replaced canonical slug. */
  lemma NextHistoryValid(previous: Metadata, slug: Slug)
    requires ValidMetadata(previous)
    requires slug !in previous.historical
    ensures Distinct(NextHistory(Some(previous), slug))
    ensures forall s :: s in NextHistory(Some(previous), slug) ==> s != slug && Normalized(s) == Ok(s)
    ensures forall s | s in previous.historical :: s in NextHistory(Some(previous), slug)
    ensures previous.slug != slug ==> previous.slug in NextHistory(Some(previous), slug)
  {
    DeduplicatedDistinct(previous.historical, []);
    var kept := Deduplicated(previous.historical, []);
    forall s | s in NextHistory(Some(previous), slug) ensures s != slug && Normalized(s) == Ok(s) {
      assert s in kept || s == previous.slug;
    }
  }

  /**
    The metadata Publish builds is valid, and the permanence check accepts it,
    whenever Publish's own test of the draft slug passed.
   */
  lemma NextMetadataAccepted(stored: Article, now: Time)
    requires stored.published.Some? ==> ValidMetadata(stored.published.value)
    requires ValidText(stored.slug, stored.title, stored.summary, stored.area, stored.coverId)
    requires stored.published.Some? ==> stored.slug !in stored.published.value.historical
    ensures ValidMetadata(NextMetadata(stored.published, stored))
    ensures PermanenceError(stored, PublishedFrom(stored, now)).None?
  {
    if stored.published.Some? {
      NextHistoryValid(stored.published.value, stored.slug);
    }
  }

  /** Publish passes validation exactly when its clock reading is not behind the stored times. */
  lemma PublishValid(stored: Article, now: Time)
    requires ValidArticle(stored)
    requires stored.draftBody.Some?
    requires stored.published.Some? ==> stored.slug !in stored.published.value.historical
    ensures ValidArticle(PublishedFrom(stored, now)) <==>
            now != ZERO_TIME && stored.createdAt <= now &&
            (stored.firstPublishedAt.Some? ==> stored.firstPublishedAt.value <= now)
  {
    hide ValidText;
    hide ValidMetadata;
    hide ValidRef;
    hide Blank;
    PublishedMetadataValid(stored);
    NextMetadataAccepted(stored, now);
    hide NextMetadata;
  }

  lemma PublishedMetadataValid(stored: Article)
    requires ValidArticle(stored)
    ensures stored.published.Some? ==> ValidMetadata(stored.published.value)
    ensures ValidText(stored.slug, stored.title, stored.summary, stored.area, stored.coverId)
  {
    hide ValidText;
    hide ValidMetadata;
  }
}
