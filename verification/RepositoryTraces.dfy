/**
  The Azure article repository simulates the memory repository: over every
  sequence of Create, Update, Get, GetPublishedBySlug and List calls, one after
  another, both give equal answers, up to the names of their ETags.
  internal/storage/azure/articles.go, internal/storage/memory/articles.go.
 */
module RepositoryTraces {
  import opened Outcomes
  import opened ArticleModel
  import opened ArticleTable
  import opened ArticleTheorems
  import opened Refinement
  import opened RowKeys
  import opened Paging
  import C = CurrentListing
  import L = Listing
  import M = MemoryArticles
  import K = ArticleCommits
  import P = ArticleProtocol
  import S = SoloRuns

  datatype Call =
    | Create(article: Article)
    | Update(article: Article, expected: ETag)
    | Get(id: Id)
    | GetPublishedBySlug(slug: Slug)
    | List(status: Option<Status>, cursor: Option<Pos>, limit: nat)

  /** Articles come with their ETags. */
  datatype Answer =
    | Found(stored: M.Stored)
    | Page(found: seq<M.Stored>, next: Option<Pos>)
    | Failed(error: Error)

  // ----- The memory repository -----

  ghost function Outcome(r: (M.Memory, Result<M.Stored>)): (M.Memory, Answer) {
    (r.0, if r.1.Ok? then Found(r.1.value) else Failed(r.1.error))
  }

  ghost predicate PublishedIs(m: M.Shelf, x: Slug, answer: Answer) {
    match answer
    case Found(y) => y.article.id in m && m[y.article.id] == y && PublicSlug(y.article, x)
    case Failed(e) => e == NotFound && forall id | id in m :: !PublicSlug(m[id].article, x)
    case Page(_, _) => false
  }

  /** What the methods of MemoryArticles.Repository ensure. */
  ghost predicate MemoryDoes(m: M.Memory, call: Call, m': M.Memory, answer: Answer) {
    match call
    case Create(a) => (m', answer) == Outcome(M.Created(m, a))
    case Update(a, e) => (m', answer) == Outcome(M.Updated(m, a, e))
    case Get(id) => m' == m && answer == if id in m.articles then Found(m.articles[id]) else Failed(NotFound)
    case GetPublishedBySlug(x) => m' == m && PublishedIs(m.articles, x, answer)
    case List(status, cursor, limit) =>
      m' == m && limit > 0 && answer.Page? && M.Lists(m.articles, status, cursor, limit, answer.found, answer.next)
  }

  // ----- The Azure repository -----

  function RowAnswer(found: Option<Row>): Answer {
    if found.Some? then Found(M.Stored(found.value.article, found.value.etag)) else Failed(NotFound)
  }

  /** A failure-free run of the call alone; after a success the row that refreshCommitted read is the answer. */
  ghost predicate WritesBy(s: Store, mode: Mode, x: S.Write, steps: seq<P.Step>, s': Store, answer: Answer) {
    var w := S.Alone(s, x, mode);
    Possible(w, steps) && S.SmoothRun(w, steps) &&
    var w' := Run(w, steps);
    && 0 in w'.clients && w'.clients[0].phase.Finished? && s' == w'.store
    && answer == match w'.clients[0].phase.outcome
                 case Ok(_) => RowAnswer(AzureFind(s'.rows, mode, x.article.id))
                 case Err(e) => Failed(e)
  }

  ghost predicate Writes(s: Store, mode: Mode, x: S.Write, s': Store, answer: Answer) {
    exists steps :: WritesBy(s, mode, x, steps, s', answer)
  }

  /** The entity type and status filter. */
  ghost predicate Matching(rows: map<Key, Row>, status: Option<Status>, k: Key) {
    k in rows && M.HasStatus(rows[k].article, status)
  }

  function RawOf(row: Row): Item<L.Raw<Article>> {
    Item(Pos(row.article.createdAt, row.article.id), L.Raw(row.article, row.etag, if row.key.CurrentKey? then L.Current else L.Legacy))
  }

  /** The rows that match, each once, in any order. */
  ghost predicate ScanOf(rows: map<Key, Row>, status: Option<Status>, scanned: seq<Item<L.Raw<Article>>>) {
    && (forall i, j | 0 <= i < j < |scanned| :: scanned[i] != scanned[j])
    && (forall x | x in scanned :: exists k :: Matching(rows, status, k) && x == RawOf(rows[k]))
    && (forall k | Matching(rows, status, k) :: RawOf(rows[k]) in scanned)
  }

  function Entries(page: seq<Item<L.Raw<Article>>>): (r: seq<M.Stored>)
    ensures |r| == |page| && forall i | 0 <= i < |r| :: r[i] == M.Stored(page[i].value.state, page[i].value.etag)
  {
    seq(|page|, i requires 0 <= i < |page| => M.Stored(page[i].value.state, page[i].value.etag))
  }

  /** What Listing.ListCompat ensures, for some order of the scan. */
  ghost predicate CompatLists(rows: map<Key, Row>, status: Option<Status>, cursor: Option<Pos>, limit: nat,
                              scanned: seq<Item<L.Raw<Article>>>, page: seq<Item<L.Raw<Article>>>, next: Option<Pos>) {
    ScanOf(rows, status, scanned) && ExactPage(L.ORDER, page, next, L.Preferred(scanned, cursor), limit)
  }

  predicate KeyIs(key: string, k: Key) {
    match k
    case CurrentKey(id, createdAt) => Bytes(id) && KeyTime(createdAt) ==> key == ArticleKey(id, createdAt)
    case LegacyKey(id) => key == id
  }

  /** The rows that match, under their keys and in key order. */
  ghost predicate TableOf(rows: map<Key, Row>, status: Option<Status>, table: seq<C.Keyed<Article>>) {
    && (forall i, j | 0 <= i < j < |table| :: Less(table[i].key, table[j].key))
    && (forall x | x in table :: exists k :: Matching(rows, status, k) && x.item == RawOf(rows[k]) && KeyIs(x.key, k))
    && (forall k | Matching(rows, status, k) :: exists x :: x in table && x.item == RawOf(rows[k]))
  }

  /** What CurrentListing.ListCurrent ensures when it does not fail, whatever the service does. */
  ghost predicate CurrentLists(rows: map<Key, Row>, status: Option<Status>, cursor: Option<Pos>, limit: nat,
                               table: seq<C.Keyed<Article>>, page: seq<Item<L.Raw<Article>>>, next: Option<Pos>) {
    && (cursor.Some? ==> C.KeyPos(cursor.value))
    && TableOf(rows, status, table) && C.CurrentAnswer(table, cursor, limit, page, next)
  }

  ghost predicate AzureLists(rows: map<Key, Row>, mode: Mode, status: Option<Status>, cursor: Option<Pos>, limit: nat,
                             page: seq<Item<L.Raw<Article>>>, next: Option<Pos>) {
    if mode.Compat? then exists scanned :: CompatLists(rows, status, cursor, limit, scanned, page, next)
    else exists table :: CurrentLists(rows, status, cursor, limit, table, page, next)
  }

  /** listCurrent needs the cursor's row key. */
  predicate BadCursor(mode: Mode, cursor: Option<Pos>) {
    mode.CurrentOnly? && cursor.Some? && (!SafeSegment(cursor.value.id) || cursor.value.createdAt < 0)
  }

  /** One call in which no driver call fails. */
  ghost predicate AzureDoes(s: Store, mode: Mode, call: Call, s': Store, answer: Answer) {
    match call
    case Create(a) => Writes(s, mode, S.Write(true, a, 0), s', answer)
    case Update(a, e) => Writes(s, mode, S.Write(false, a, e), s', answer)
    case Get(id) => s' == s && answer == RowAnswer(AzureFind(s.rows, mode, id))
    case GetPublishedBySlug(x) => s' == s && answer == RowAnswer(AzurePublished(s, mode, x))
    case List(status, cursor, limit) =>
      && s' == s && limit > 0
      && if BadCursor(mode, cursor) then answer == Failed(Validation)
         else answer.Page? &&
              exists page :: AzureLists(s.rows, mode, status, cursor, limit, page, answer.next) && answer.found == Entries(page)
  }

  // ----- The simulation relation -----

  /** The ETags that the Azure repository handed out, and the memory repository's counterparts. */
  type Tags = map<ETag, nat>

  ghost predicate TagsOk(s: Store, m: M.Memory, tags: Tags) {
    && (forall k | k in s.rows :: s.rows[k].etag in tags && k.id in m.articles && m.articles[k.id].etag == tags[s.rows[k].etag])
    && (forall e | e in tags :: e < s.next && tags[e] <= m.last)
    && (forall e, e' | e in tags && e' in tags && tags[e] == tags[e'] :: e == e')
  }

  ghost predicate Timely(rows: map<Key, Row>) {
    forall k | k in rows :: KeyTime(rows[k].article.createdAt)
  }

  ghost predicate Related(s: Store, mode: Mode, m: M.Memory, tags: Tags) {
    Same(s, m.articles) && RowsStorable(s.rows) && Served(s.rows, mode) && Timely(s.rows) && TagsOk(s, m, tags)
  }

  /** A write hands out the next ETag on both sides. */
  function NextTags(tags: Tags, s: Store, m: M.Memory, s': Store): Tags {
    if s'.next == s.next then tags else tags[s.next := m.last + 1]
  }

  ghost predicate SameStored(tags: Tags, x: M.Stored, y: M.Stored) {
    x.article == y.article && x.etag in tags && tags[x.etag] == y.etag
  }

  /** Once the table is migrated, a spurious continuation may add a cursor at the end of the last page. */
  predicate NextAlike(mode: Mode, found: seq<M.Stored>, next: Option<Pos>, next': Option<Pos>) {
    || next == next'
    || (mode.CurrentOnly? && next'.None? && found != [] &&
        next == Some(Pos(found[|found| - 1].article.createdAt, found[|found| - 1].article.id)))
  }

  /** Equal answers, up to the names of the ETags. */
  ghost predicate Alike(mode: Mode, tags: Tags, x: Answer, y: Answer) {
    match x
    case Found(a) => y.Found? && SameStored(tags, a, y.stored)
    case Failed(e) => y == Failed(e)
    case Page(found, next) =>
      && y.Page? && |found| == |y.found| && (forall i | 0 <= i < |found| :: SameStored(tags, found[i], y.found[i]))
      && NextAlike(mode, found, next, y.next)
  }

  /** The expected ETags correspond: one that was never handed out to one that was never handed out. */
  ghost predicate SameTag(tags: Tags, e: ETag, e': nat) {
    if e in tags then e' == tags[e] else forall f | f in tags :: tags[f] != e'
  }

  ghost predicate SameCall(tags: Tags, call: Call, call': Call) {
    if call.Update? then call'.Update? && call'.article == call.article && SameTag(tags, call.expected, call'.expected) else call == call'
  }

  /**
    What the service asks for: new articles with IDs and times that the keys can
    hold, updates that it made of the version with the expected ETag, and
    cursors that the repository gave out.
   */
  ghost predicate Safe(s: Store, mode: Mode, call: Call) {
    match call
    case Create(a) => SafeSegment(a.id) && KeyTime(a.createdAt)
    case Update(a, e) => forall k | k in s.rows && k.id == a.id && s.rows[k].etag == e :: ServiceMade(s.rows[k].article, a)
    case Get(_) => true
    case GetPublishedBySlug(_) => true
    case List(_, cursor, _) => mode.CurrentOnly? && cursor.Some? ==> SafeSegment(cursor.value.id) && KeyTime(cursor.value.createdAt)
  }

  // ----- Writes -----

  ghost function MemoryWrites(m: M.Memory, x: S.Write, expected: nat): (M.Memory, Answer) {
    Outcome(if x.creates then M.Created(m, x.article) else M.Updated(m, x.article, expected))
  }

  ghost predicate SafeWrite(s: Store, x: S.Write) {
    if x.creates then SafeSegment(x.article.id) && KeyTime(x.article.createdAt)
    else forall k | k in s.rows && k.id == x.article.id && s.rows[k].etag == x.expected :: ServiceMade(s.rows[k].article, x.article)
  }

  lemma TagDecides(s: Store, m: M.Memory, tags: Tags, k: Key, e: ETag, e': nat)
    requires TagsOk(s, m, tags) && k in s.rows && SameTag(tags, e, e')
    ensures k.id in m.articles && (s.rows[k].etag == e <==> m.articles[k.id].etag == e')
  {
  }

  lemma WriteContext(s: Store, mode: Mode, m: M.Memory, tags: Tags, x: S.Write, e': nat)
    requires Related(s, mode, m, tags) && SafeWrite(s, x) && (!x.creates ==> SameTag(tags, x.expected, e'))
    ensures S.ContextOk(S.Context(s, m.articles, mode, x, e'))
  {
    hide Same;
    hide RowsStorable;
    hide Served;
    hide Timely;
    hide TagsOk;
    hide SameTag;
    hide ServiceMade;
    hide Produced;
    if !x.creates {
      forall k | k in s.rows && k.id == x.article.id ensures S.UpdatesRow(S.Context(s, m.articles, mode, x, e'), s.rows[k]) {
        TagDecides(s, m, tags, k, x.expected, e');
        if s.rows[k].etag == x.expected {
          ServiceMadeProduced(s.rows[k].article, x.article);
        }
      }
    }
  }

  lemma QuietRelated(s: Store, mode: Mode, m: M.Memory, tags: Tags, s': Store)
    requires Related(s, mode, m, tags) && s'.rows == s.rows && s'.slugs == s.slugs && s'.next == s.next
    ensures Related(s', mode, m, tags)
  {
    hide KeysOk;
    hide SlugIndexExact;
    hide RowsStorable;
    hide Served;
    hide Timely;
  }

  // ----- A write that is stored -----

  /** The article's row, if there was one, makes way for a row with the next ETag. */
  ghost predicate Swapped(s: Store, a: Article, s': Store, gone: Key, row: Row) {
    && s'.rows == (s.rows - {gone})[row.key := row] && s'.next == s.next + 1
    && row.article == a && row.etag == s.next && row.key.id == a.id == gone.id
    && (forall k | k in s.rows && k.id == a.id :: k == gone)
  }

  lemma WroteSwapped(t: S.Context, s: Store, c: P.Client)
    requires S.Wrote(t, s, c)
    ensures Swapped(t.s, t.x.article, s, K.Gone(c), P.NewRow(c, t.s.next))
  {
    hide S.Consistent;
    hide S.Goal;
  }

  lemma SwappedSame(s: Store, m: M.Memory, a: Article, s': Store, gone: Key, row: Row)
    requires Same(s, m.articles) && Swapped(s, a, s', gone, row) && KeysOk(s'.rows) && SlugIndexExact(s'.rows, s'.slugs)
    ensures Same(s', M.Put(m, a).articles)
  {
    hide KeysOk;
    hide SlugIndexExact;
    forall id | id in M.Put(m, a).articles ensures HasRowFor(s'.rows, id) {
      if id == a.id {
        assert row.key in s'.rows;
      } else {
        var k :| k in s.rows && k.id == id;
        assert k in s'.rows;
      }
    }
  }

  lemma SwappedTags(s: Store, m: M.Memory, tags: Tags, a: Article, s': Store, gone: Key, row: Row)
    requires TagsOk(s, m, tags) && Swapped(s, a, s', gone, row)
    ensures TagsOk(s', M.Put(m, a), tags[s.next := m.last + 1])
  {
  }

  lemma SwappedTimely(s: Store, a: Article, s': Store, gone: Key, row: Row)
    requires Timely(s.rows) && Swapped(s, a, s', gone, row) && KeyTime(a.createdAt)
    ensures Timely(s'.rows)
  {
  }

  /** The new version keeps the creation time that the keys can hold. */
  lemma WroteTimely(s: Store, mode: Mode, m: M.Memory, tags: Tags, t: S.Context, s': Store, c: P.Client)
    requires Related(s, mode, m, tags) && SafeWrite(s, t.x) && t.s == s && S.Wrote(t, s', c)
    ensures KeyTime(t.x.article.createdAt)
  {
    hide S.Consistent;
    hide S.Goal;
    hide ServiceMade;
    hide Same;
    hide RowsStorable;
    hide TagsOk;
    hide S.OnlyGoes;
    hide KeyTime;
    if !t.x.creates {
      var row := c.op.prior.value;
      assert s.rows[row.key] == row;
      ServiceMadeProduced(row.article, t.x.article);
    }
  }

  /** After a stored write both repositories hold the new version under the next ETag. */
  lemma WroteRelated(s: Store, mode: Mode, m: M.Memory, tags: Tags, t: S.Context, s': Store, c: P.Client)
    requires Related(s, mode, m, tags) && SafeWrite(s, t.x) && t.s == s && t.mode == mode && S.Wrote(t, s', c)
    ensures var a := t.x.article;
            && Related(s', mode, M.Put(m, a), tags[s.next := m.last + 1]) && s'.next == s.next + 1
            && AzureFind(s'.rows, mode, a.id) == Some(P.NewRow(c, s.next))
            && P.NewRow(c, s.next).article == a && P.NewRow(c, s.next).etag == s.next
  {
    var a, gone, row := t.x.article, K.Gone(c), P.NewRow(c, s.next);
    assert S.Consistent(mode, s'.rows, s'.slugs);
    WroteTimely(s, mode, m, tags, t, s', c);
    WroteSwapped(t, s', c);
    hide S.Wrote;
    hide SafeWrite;
    hide P.NewRow;
    hide K.Gone;
    hide KeysOk;
    hide SlugIndexExact;
    hide RowsStorable;
    hide Served;
    hide AzureFind;
    SwappedSame(s, m, a, s', gone, row);
    SwappedTags(s, m, tags, a, s', gone, row);
    SwappedTimely(s, a, s', gone, row);
    hide Same;
    hide TagsOk;
    hide Timely;
    FindsRow(s'.rows, mode, row.key);
  }

  lemma MemoryWritesGoal(m: M.Memory, t: S.Context)
    requires t.m == m.articles
    ensures MemoryWrites(m, t.x, t.expected) ==
            if S.Goal(t).Some? then (m, Failed(S.Goal(t).value)) else (M.Put(m, t.x.article), Found(M.Stored(t.x.article, m.last + 1)))
  {
    hide M.CreateError;
    hide M.UpdateError;
  }

  /** The run of a write ends with the answer of the memory repository. */
  lemma WriteEnds(t: S.Context, steps: seq<P.Step>, s': Store, answer: Answer) returns (c: P.Client, outcome: Result<Article>)
    requires S.ContextOk(t) && WritesBy(t.s, t.mode, t.x, steps, s', answer)
    ensures S.Answered(t, s', c, outcome)
    ensures answer == match outcome case Ok(_) => RowAnswer(AzureFind(s'.rows, t.mode, t.x.article.id)) case Err(e) => Failed(e)
  {
    hide S.ContextOk;
    hide S.Answered;
    hide S.Alone;
    hide S.SmoothRun;
    hide Possible;
    hide Run;
    hide AzureFind;
    c := Run(S.Alone(t.s, t.x, t.mode), steps).clients[0];
    outcome := c.phase.outcome;
    S.WriteAnswers(t, steps, outcome);
  }

  lemma WriteSimulates(s: Store, mode: Mode, m: M.Memory, tags: Tags, x: S.Write, e': nat, s': Store, answer: Answer)
    requires Related(s, mode, m, tags) && SafeWrite(s, x) && (!x.creates ==> SameTag(tags, x.expected, e'))
    requires Writes(s, mode, x, s', answer)
    ensures var after, tags' := MemoryWrites(m, x, e'), NextTags(tags, s, m, s');
            Related(s', mode, after.0, tags') && Alike(mode, tags', answer, after.1)
  {
    hide Related;
    hide SafeWrite;
    hide SameTag;
    hide WritesBy;
    hide S.ContextOk;
    hide S.Goal;
    hide S.Wrote;
    hide MemoryWrites;
    hide AzureFind;
    hide P.NewRow;
    var t := S.Context(s, m.articles, mode, x, e');
    var steps :| WritesBy(s, mode, x, steps, s', answer);
    WriteContext(s, mode, m, tags, x, e');
    var c, outcome := WriteEnds(t, steps, s', answer);
    MemoryWritesGoal(m, t);
    if outcome.Ok? {
      assert S.Goal(t).None? by { GoalNone(t, s', c); }
      WroteRelated(s, mode, m, tags, t, s', c);
    } else {
      QuietRelated(s, mode, m, tags, s');
    }
  }

  lemma GoalNone(t: S.Context, s: Store, c: P.Client)
    requires S.Wrote(t, s, c)
    ensures S.Goal(t).None?
  {
    hide S.Goal;
    hide S.Consistent;
  }

  // ----- Reads -----

  lemma GetSimulates(s: Store, mode: Mode, m: M.Memory, tags: Tags, id: Id)
    requires Related(s, mode, m, tags)
    ensures Alike(mode, tags, RowAnswer(AzureFind(s.rows, mode, id)), if id in m.articles then Found(m.articles[id]) else Failed(NotFound))
  {
    hide SlugIndexExact;
    hide RowsStorable;
    hide Served;
    hide Timely;
    hide AzureFind;
    if k :| k in s.rows && k.id == id {
      FindsRow(s.rows, mode, k);
    } else {
      assert !HasRowFor(s.rows, id);
      FindsNothing(s.rows, mode, id);
    }
  }

  lemma PublishedSimulates(s: Store, mode: Mode, m: M.Memory, tags: Tags, x: Slug, answer: Answer)
    requires Related(s, mode, m, tags) && PublishedIs(m.articles, x, answer)
    ensures Alike(mode, tags, RowAnswer(AzurePublished(s, mode, x)), answer)
  {
    hide KeysOk;
    hide SlugIndexExact;
    hide RowsStorable;
    hide Served;
    hide Timely;
    hide AzurePublished;
    hide PublicSlug;
    PublishedAgrees(s, m.articles, mode, x);
    if answer.Found? {
      var id := answer.stored.article.id;
      assert HasRowFor(s.rows, id);
      var k :| k in s.rows && k.id == id;
    }
  }

  // ----- Listings -----

  /** A match is a stored article with the status, and the other way round. */
  lemma MatchingItem(s: Store, m: M.Shelf, status: Option<Status>, k: Key)
    requires Same(s, m) && k in s.rows
    ensures RawOf(s.rows[k]).pos.id == k.id && k.id in m && L.Plain(RawOf(s.rows[k])) == M.ItemOf(m[k.id].article)
    ensures Matching(s.rows, status, k) <==> M.HasStatus(m[k.id].article, status)
  {
    hide SlugIndexExact;
  }

  lemma ItemRow(s: Store, m: M.Shelf, status: Option<Status>, y: Item<Article>) returns (k: Key)
    requires Same(s, m) && y in M.ItemsOf(m, status)
    ensures Matching(s.rows, status, k) && L.Plain(RawOf(s.rows[k])) == y
  {
    hide KeysOk;
    hide SlugIndexExact;
    var id :| id in m && M.HasStatus(m[id].article, status) && y == M.ItemOf(m[id].article);
    assert HasRowFor(s.rows, id);
    k :| k in s.rows && k.id == id;
  }

  /** These are the rows that match. */
  ghost predicate AllMatches(s: Store, status: Option<Status>, rows: set<Item<L.Raw<Article>>>) {
    && (forall x | x in rows :: exists k :: Matching(s.rows, status, k) && x == RawOf(s.rows[k]))
    && (forall k | Matching(s.rows, status, k) :: RawOf(s.rows[k]) in rows)
  }

  lemma MatchesUnique(s: Store, m: M.Shelf, status: Option<Status>, rows: set<Item<L.Raw<Article>>>)
    requires Same(s, m) && AllMatches(s, status, rows)
    ensures UniqueIds(rows)
  {
    assert KeysOk(s.rows);
    hide Same;
    forall x, y | x in rows && y in rows && x.pos.id == y.pos.id ensures x == y {
      var k :| Matching(s.rows, status, k) && x == RawOf(s.rows[k]);
      var k' :| Matching(s.rows, status, k') && y == RawOf(s.rows[k']);
      MatchingItem(s, m, status, k);
      MatchingItem(s, m, status, k');
    }
  }

  /** The rows that match are, without their ETags and places, the articles that the memory repository lists. */
  lemma PlainRows(s: Store, m: M.Shelf, status: Option<Status>, rows: set<Item<L.Raw<Article>>>)
    requires Same(s, m) && AllMatches(s, status, rows)
    ensures L.PlainSet(rows) == M.ItemsOf(m, status)
  {
    hide Same;
    hide RawOf;
    hide L.Plain;
    forall x | x in rows ensures L.Plain(x) in M.ItemsOf(m, status) {
      var k :| Matching(s.rows, status, k) && x == RawOf(s.rows[k]);
      MatchingItem(s, m, status, k);
    }
    forall y | y in M.ItemsOf(m, status) ensures y in L.PlainSet(rows) {
      var k := ItemRow(s, m, status, y);
      assert RawOf(s.rows[k]) in rows;
    }
  }

  /** Listed articles come with corresponding ETags. */
  lemma EntriesAlike(s: Store, m: M.Memory, tags: Tags, status: Option<Status>, page: seq<Item<L.Raw<Article>>>,
                     items: seq<Item<Article>>, found: seq<M.Stored>)
    requires Same(s, m.articles) && TagsOk(s, m, tags) && L.PlainSeq(page) == items
    requires forall x | x in page :: exists k :: Matching(s.rows, status, k) && x == RawOf(s.rows[k])
    requires (forall i | 0 <= i < |items| :: items[i].pos.id in m.articles) && found == M.StoredAt(m.articles, items)
    ensures |found| == |page| && forall i | 0 <= i < |page| :: SameStored(tags, Entries(page)[i], found[i])
  {
    forall i | 0 <= i < |page| ensures SameStored(tags, Entries(page)[i], found[i]) {
      assert page[i] in page && items[i] == L.Plain(page[i]);
      var k :| Matching(s.rows, status, k) && page[i] == RawOf(s.rows[k]);
      MatchingItem(s, m.articles, status, k);
    }
  }

  lemma ScanMatches(s: Store, status: Option<Status>, scanned: seq<Item<L.Raw<Article>>>)
    requires ScanOf(s.rows, status, scanned)
    ensures AllMatches(s, status, Elements(scanned))
    ensures forall i | 0 <= i < |scanned| :: scanned[i] in Elements(scanned) && !scanned[i].value.place.Misplaced?
  {
    forall i | 0 <= i < |scanned| ensures scanned[i] in Elements(scanned) && !scanned[i].value.place.Misplaced? {
      assert scanned[i] in scanned;
    }
  }

  /** Different rows are of different articles: one scan is consistent. */
  lemma ScanConsistent(s: Store, m: M.Shelf, status: Option<Status>, scanned: seq<Item<L.Raw<Article>>>)
    requires Same(s, m) && ScanOf(s.rows, status, scanned)
    ensures L.Consistent(scanned) && L.PlainSet(L.Preferred(scanned, None)) == M.ItemsOf(m, status)
  {
    hide Same;
    hide AllMatches;
    hide L.PlainSet;
    hide M.ItemsOf;
    ScanMatches(s, status, scanned);
    MatchesUnique(s, m, status, Elements(scanned));
    PlainRows(s, m, status, Elements(scanned));
    assert forall i, j | 0 <= i < j < |scanned| :: scanned[i].pos.id != scanned[j].pos.id;
    hide ScanOf;
    AllPreferred(scanned);
  }

  lemma AllPreferred(scanned: seq<Item<L.Raw<Article>>>)
    requires forall i, j | 0 <= i < j < |scanned| :: scanned[i].pos.id != scanned[j].pos.id
    ensures L.Preferred(scanned, None) == Elements(scanned)
  {
    forall x, y | x in scanned && y in scanned && x.pos.id == y.pos.id ensures x == y {
      var i :| 0 <= i < |scanned| && scanned[i] == x;
      var j :| 0 <= j < |scanned| && scanned[j] == y;
    }
  }

  lemma CompatPageMatches(s: Store, status: Option<Status>, cursor: Option<Pos>, limit: nat,
                          scanned: seq<Item<L.Raw<Article>>>, page: seq<Item<L.Raw<Article>>>, next: Option<Pos>)
    requires CompatLists(s.rows, status, cursor, limit, scanned, page, next)
    ensures forall x | x in page :: exists k :: Matching(s.rows, status, k) && x == RawOf(s.rows[k])
  {
    hide RawOf;
    hide L.HasCurrent;
    forall x | x in page ensures exists k :: Matching(s.rows, status, k) && x == RawOf(s.rows[k]) {
      assert x in scanned;
    }
  }

  lemma CompatListSimulates(s: Store, mode: Mode, m: M.Memory, tags: Tags, status: Option<Status>, cursor: Option<Pos>, limit: nat,
                            scanned: seq<Item<L.Raw<Article>>>, page: seq<Item<L.Raw<Article>>>, next: Option<Pos>,
                            items: seq<Item<Article>>, found: seq<M.Stored>, next': Option<Pos>)
    requires Related(s, mode, m, tags) && CompatLists(s.rows, status, cursor, limit, scanned, page, next)
    requires M.ListsItems(m.articles, status, cursor, limit, items, found, next')
    ensures Alike(mode, tags, Page(Entries(page), next), Page(found, next'))
  {
    hide Same;
    hide RowsStorable;
    hide Served;
    hide Timely;
    hide TagsOk;
    hide M.ItemsOf;
    hide SameStored;
    hide L.Consistent;
    hide L.Preferred;
    hide L.PlainSet;
    hide Matching;
    hide ScanOf;
    hide ExactPage;
    ScanConsistent(s, m.articles, status, scanned);
    L.CompatListsLikeMemory(scanned, M.ItemsOf(m.articles, status), cursor, limit, page, next, items, next');
    CompatPageMatches(s, status, cursor, limit, scanned, page, next);
    EntriesAlike(s, m, tags, status, page, items, found);
  }

  lemma RowKeyPos(s: Store, k: Key)
    requires KeysOk(s.rows) && RowsStorable(s.rows) && Timely(s.rows) && k in s.rows
    ensures var a := s.rows[k].article; Bytes(a.id) && KeyTime(a.createdAt) && KeyFits(k, a) && s.rows[k].key == k
  {
    hide ValidArticle;
    hide KeyTime;
    assert Storable(s.rows[k].article);
    hide RowsStorable;
    SafeBytes(s.rows[k].article.id);
  }

  lemma EntryInOrder(s: Store, k: Key, x: C.Keyed<Article>)
    requires KeysOk(s.rows) && RowsStorable(s.rows) && Timely(s.rows) && k in s.rows
    requires x.item == RawOf(s.rows[k]) && KeyIs(x.key, k) && x.item.value.place.Current?
    ensures C.KeyPos(x.item.pos) && x.key == ArticleKey(x.item.pos.id, x.item.pos.createdAt)
  {
    hide KeysOk;
    hide RowsStorable;
    hide Timely;
    hide Bytes;
    hide KeyTime;
    hide ArticleKey;
    RowKeyPos(s, k);
  }

  lemma TableInOrder(s: Store, m: M.Shelf, status: Option<Status>, table: seq<C.Keyed<Article>>)
    requires Same(s, m) && RowsStorable(s.rows) && Timely(s.rows) && TableOf(s.rows, status, table)
    ensures C.InKeyOrder(table)
  {
    assert KeysOk(s.rows);
    hide Same;
    hide KeysOk;
    hide RowsStorable;
    hide Timely;
    hide KeyIs;
    hide C.KeyPos;
    hide Bytes;
    hide KeyTime;
    hide ArticleKey;
    hide RawOf;
    hide Less;
    forall x | x in table && x.item.value.place.Current?
      ensures C.KeyPos(x.item.pos) && x.key == ArticleKey(x.item.pos.id, x.item.pos.createdAt)
    {
      var k :| Matching(s.rows, status, k) && x.item == RawOf(s.rows[k]) && KeyIs(x.key, k);
      EntryInOrder(s, k, x);
    }
  }

  /** Once the table is migrated, the rows that match are all current. */
  lemma TableItems(s: Store, mode: Mode, m: M.Shelf, status: Option<Status>, table: seq<C.Keyed<Article>>)
    requires Same(s, m) && Served(s.rows, mode) && mode.CurrentOnly? && TableOf(s.rows, status, table)
    ensures L.PlainSet(C.CurrentItems(table)) == M.ItemsOf(m, status) && UniqueIds(C.CurrentItems(table))
    ensures forall x | x in C.CurrentItems(table) :: exists k :: Matching(s.rows, status, k) && x == RawOf(s.rows[k])
  {
    assert KeysOk(s.rows);
    forall x | x in C.CurrentItems(table) ensures exists k :: Matching(s.rows, status, k) && x == RawOf(s.rows[k]) {
      var y :| y in table && y.item == x;
    }
    forall k | Matching(s.rows, status, k) ensures RawOf(s.rows[k]) in C.CurrentItems(table) {
      var y :| y in table && y.item == RawOf(s.rows[k]);
      assert k.CurrentKey?;
    }
    hide Same;
    hide TableOf;
    MatchesUnique(s, m, status, C.CurrentItems(table));
    PlainRows(s, m, status, C.CurrentItems(table));
  }

  lemma PlainBeyondSet(rows: set<Item<L.Raw<Article>>>, cursor: Option<Pos>)
    ensures L.PlainSet(Beyond(L.ORDER, rows, cursor)) == Beyond(L.ORDER, L.PlainSet(rows), cursor)
  {
    var left, right := L.PlainSet(Beyond(L.ORDER, rows, cursor)), Beyond(L.ORDER, L.PlainSet(rows), cursor);
    forall y ensures y in left <==> y in right {
      if y in left {
        var x :| x in Beyond(L.ORDER, rows, cursor) && L.Plain(x) == y;
      }
      if y in right {
        var x :| x in rows && L.Plain(x) == y;
        assert x in Beyond(L.ORDER, rows, cursor);
      }
    }
  }

  /** An inexact page has the items of the exact one, and its cursor too if that has one. */
  lemma PageLikeExact(page: seq<Item<L.Raw<Article>>>, next: Option<Pos>, rows: set<Item<L.Raw<Article>>>, limit: nat,
                      items: seq<Item<Article>>, next': Option<Pos>)
    requires PageOf(L.ORDER, page, next, rows, limit) && UniqueIds(rows)
    requires ExactPage(L.ORDER, items, next', L.PlainSet(rows), limit)
    ensures L.PlainSeq(page) == items
    ensures next == next' || (next'.None? && page != [] && next == Some(page[|page| - 1].pos))
  {
    L.PlainTop(page, rows, limit);
    hide IsTop;
    hide UniqueIds;
    TopUnique(L.ORDER, L.PlainSeq(page), items, L.PlainSet(rows), limit);
    if next'.Some? {
      var y :| y in L.PlainSet(rows) && y !in items;
      var x :| x in rows && L.Plain(x) == y;
      assert x !in page;
    }
  }

  /** listCurrent's page against the exact page of the memory repository. */
  lemma CurrentPageLike(s: Store, mode: Mode, m: M.Shelf, status: Option<Status>, cursor: Option<Pos>, limit: nat,
                        table: seq<C.Keyed<Article>>, page: seq<Item<L.Raw<Article>>>, next: Option<Pos>,
                        items: seq<Item<Article>>, next': Option<Pos>)
    requires Same(s, m) && RowsStorable(s.rows) && Served(s.rows, mode) && Timely(s.rows) && mode.CurrentOnly?
    requires CurrentLists(s.rows, status, cursor, limit, table, page, next)
    requires ExactPage(L.ORDER, items, next', Beyond(L.ORDER, M.ItemsOf(m, status), cursor), limit)
    ensures L.PlainSeq(page) == items && (forall x | x in page :: x in C.CurrentItems(table))
    ensures next == next' || (next'.None? && page != [] && next == Some(page[|page| - 1].pos))
  {
    hide Same;
    hide RowsStorable;
    hide Served;
    hide Timely;
    hide TableOf;
    hide M.ItemsOf;
    hide C.CurrentAnswer;
    hide C.InKeyOrder;
    hide C.CurrentItems;
    hide C.KeyPos;
    hide ExactPage;
    hide L.PlainSet;
    var all := C.CurrentItems(table);
    TableInOrder(s, m, status, table);
    C.AnswerIsPage(table, cursor, limit, page, next);
    TableItems(s, mode, m, status, table);
    PlainBeyondSet(all, cursor);
    assert UniqueIds(Beyond(L.ORDER, all, cursor));
    hide UniqueIds;
    PageLikeExact(page, next, Beyond(L.ORDER, all, cursor), limit, items, next');
  }

  lemma CurrentListSimulates(s: Store, mode: Mode, m: M.Memory, tags: Tags, status: Option<Status>, cursor: Option<Pos>, limit: nat,
                             table: seq<C.Keyed<Article>>, page: seq<Item<L.Raw<Article>>>, next: Option<Pos>,
                             items: seq<Item<Article>>, found: seq<M.Stored>, next': Option<Pos>)
    requires Related(s, mode, m, tags) && mode.CurrentOnly? && CurrentLists(s.rows, status, cursor, limit, table, page, next)
    requires M.ListsItems(m.articles, status, cursor, limit, items, found, next')
    ensures Alike(mode, tags, Page(Entries(page), next), Page(found, next'))
  {
    hide Same;
    hide RowsStorable;
    hide Served;
    hide Timely;
    hide TagsOk;
    hide TableOf;
    hide M.ItemsOf;
    hide SameStored;
    hide C.CurrentAnswer;
    hide C.CurrentItems;
    hide C.KeyPos;
    hide ExactPage;
    hide Beyond;
    hide UniqueIds;
    hide L.PlainSet;
    CurrentPageLike(s, mode, m.articles, status, cursor, limit, table, page, next, items, next');
    TableItems(s, mode, m.articles, status, table);
    assert forall x | x in page :: exists k :: Matching(s.rows, status, k) && x == RawOf(s.rows[k]);
    EntriesAlike(s, m, tags, status, page, items, found);
    if page != [] {
      LastEntry(s, status, page);
    }
  }

  /** Where the last entry of a page is. */
  function LastAt(page: seq<Item<L.Raw<Article>>>): Pos
    requires page != []
  {
    var a := Entries(page)[|page| - 1].article;
    Pos(a.createdAt, a.id)
  }

  lemma LastEntry(s: Store, status: Option<Status>, page: seq<Item<L.Raw<Article>>>)
    requires page != [] && forall x | x in page :: exists k :: Matching(s.rows, status, k) && x == RawOf(s.rows[k])
    ensures LastAt(page) == page[|page| - 1].pos
  {
    assert page[|page| - 1] in page;
  }

  lemma ListSimulates(s: Store, mode: Mode, m: M.Memory, tags: Tags, status: Option<Status>, cursor: Option<Pos>, limit: nat,
                      page: seq<Item<L.Raw<Article>>>, next: Option<Pos>, found: seq<M.Stored>, next': Option<Pos>)
    requires Related(s, mode, m, tags) && AzureLists(s.rows, mode, status, cursor, limit, page, next)
    requires M.Lists(m.articles, status, cursor, limit, found, next')
    ensures Alike(mode, tags, Page(Entries(page), next), Page(found, next'))
  {
    hide Related;
    hide Alike;
    hide M.ListsItems;
    hide CompatLists;
    hide CurrentLists;
    var items :| M.ListsItems(m.articles, status, cursor, limit, items, found, next');
    if mode.Compat? {
      var scanned :| CompatLists(s.rows, status, cursor, limit, scanned, page, next);
      CompatListSimulates(s, mode, m, tags, status, cursor, limit, scanned, page, next, items, found, next');
    } else {
      var table :| CurrentLists(s.rows, status, cursor, limit, table, page, next);
      CurrentListSimulates(s, mode, m, tags, status, cursor, limit, table, page, next, items, found, next');
    }
  }

  // ----- Sequences of calls -----

  /** The same call on both sides, with both answers and what is stored afterwards. */
  datatype Turn = Turn(call: Call, answer: Answer, store: Store, call': Call, answer': Answer, memory: M.Memory)

  ghost predicate Taken(s: Store, mode: Mode, m: M.Memory, tags: Tags, t: Turn) {
    && Safe(s, mode, t.call) && SameCall(tags, t.call, t.call')
    && AzureDoes(s, mode, t.call, t.store, t.answer) && MemoryDoes(m, t.call', t.memory, t.answer')
  }

  ghost predicate Played(s: Store, mode: Mode, m: M.Memory, tags: Tags, turns: seq<Turn>)
    decreases |turns|
  {
    turns == [] ||
    (Taken(s, mode, m, tags, turns[0]) &&
     Played(turns[0].store, mode, turns[0].memory, NextTags(tags, s, m, turns[0].store), turns[1..]))
  }

  /** Every turn's answers are equal, and what is stored after it is related. */
  ghost predicate AllAlike(s: Store, mode: Mode, m: M.Memory, tags: Tags, turns: seq<Turn>)
    decreases |turns|
  {
    turns == [] ||
    (var tags' := NextTags(tags, s, m, turns[0].store);
     && Alike(mode, tags', turns[0].answer, turns[0].answer') && Related(turns[0].store, mode, turns[0].memory, tags')
     && AllAlike(turns[0].store, mode, turns[0].memory, tags', turns[1..]))
  }

  /** One call: the answers are equal, and what is stored stays related. */
  lemma TurnSimulates(s: Store, mode: Mode, m: M.Memory, tags: Tags, t: Turn)
    requires Related(s, mode, m, tags) && Taken(s, mode, m, tags, t)
    ensures var tags' := NextTags(tags, s, m, t.store);
            Related(t.store, mode, t.memory, tags') && Alike(mode, tags', t.answer, t.answer')
  {
    hide Related;
    hide Alike;
    hide Writes;
    hide AzureLists;
    hide M.Lists;
    hide M.Created;
    hide M.Updated;
    hide AzureFind;
    hide AzurePublished;
    hide ServiceMade;
    hide SameTag;
    hide SafeSegment;
    match t.call
    case Create(a) => WriteSimulates(s, mode, m, tags, S.Write(true, a, 0), 0, t.store, t.answer);
    case Update(a, e) => WriteSimulates(s, mode, m, tags, S.Write(false, a, e), t.call'.expected, t.store, t.answer);
    case Get(id) => GetSimulates(s, mode, m, tags, id);
    case GetPublishedBySlug(x) => PublishedSimulates(s, mode, m, tags, x, t.answer');
    case List(status, cursor, limit) =>
      var page :| AzureLists(s.rows, mode, status, cursor, limit, page, t.answer.next) && t.answer.found == Entries(page);
      ListSimulates(s, mode, m, tags, status, cursor, limit, page, t.answer.next, t.answer'.found, t.answer'.next);
  }

  /**
    Over every sequence of calls the two repositories give equal answers, errors
    included, and what they store stays related.
   */
  lemma {:induction false} SimulatesMemory(s: Store, mode: Mode, m: M.Memory, tags: Tags, turns: seq<Turn>)
    requires Related(s, mode, m, tags) && Played(s, mode, m, tags, turns)
    ensures AllAlike(s, mode, m, tags, turns)
    decreases |turns|
  {
    hide Related;
    hide Taken;
    hide Alike;
    hide NextTags;
    if turns != [] {
      TurnSimulates(s, mode, m, tags, turns[0]);
      SimulatesMemory(turns[0].store, mode, turns[0].memory, NextTags(tags, s, m, turns[0].store), turns[1..]);
    }
  }

  /** Two empty repositories are related. */
  lemma EmptyRelated(s: Store, mode: Mode)
    requires s.rows == map[] && s.slugs == map[]
    ensures Related(s, mode, M.Memory(map[], 0), map[])
  {
  }

  /** A write never gets stuck: some failure-free run of it ends. */
  lemma WriteIsAnswered(s: Store, mode: Mode, m: M.Memory, tags: Tags, x: S.Write, e': nat)
    requires Related(s, mode, m, tags) && SafeWrite(s, x) && (!x.creates ==> SameTag(tags, x.expected, e'))
    ensures exists s', answer :: Writes(s, mode, x, s', answer)
  {
    hide Related;
    hide SafeWrite;
    hide SameTag;
    hide S.ContextOk;
    hide S.SoloOk;
    hide S.Alone;
    hide S.SmoothRun;
    hide Possible;
    hide Run;
    hide AzureFind;
    WriteContext(s, mode, m, tags, x, e');
    var t := S.Context(s, m.articles, mode, x, e');
    S.BeginSolo(t);
    var steps := S.Finishes(t, S.Alone(s, x, mode));
    var w' := Run(S.Alone(s, x, mode), steps);
    var answer := match w'.clients[0].phase.outcome
                  case Ok(_) => RowAnswer(AzureFind(w'.store.rows, mode, x.article.id))
                  case Err(e) => Failed(e);
    assert WritesBy(s, mode, x, steps, w'.store, answer);
    assert Writes(s, mode, x, w'.store, answer);
  }
}
