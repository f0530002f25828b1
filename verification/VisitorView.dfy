/**
  What a visitor sees of the stored articles, field by field, and what a Publish
  puts before his eyes. GetPublished, ListPublished and publishedProjection of
  internal/articles/service.go, internal/web/public/articles.go.
 */
module VisitorView {
  import opened Outcomes
  import opened ArticleModel
  import opened Paging
  import opened PublicSite
  import T = ArticleTable
  import R = ArticleProtocol
  import I = ArticleInvariant
  import K = ArticleCommits
  import H = ArticleTheorems
  import W = ArticleWrites
  import A = ArticleSite

  /** v is the article as it was last published; of the draft nothing is seen. */
  predicate ShowsPublication(v: Article, a: Article) {
    && a.published.Some? && a.lastPublishedAt.Some?
    && v.id == a.id && v.status == a.status && v.createdAt == a.createdAt && v.deletedAt == a.deletedAt
    && v.slug == a.published.value.slug && v.title == a.published.value.title && v.summary == a.published.value.summary
    && v.area == a.published.value.area && v.coverId == a.published.value.coverId
    && v.draftBody == None && v.publishedBody == a.publishedBody && v.published == a.published
    && v.firstPublishedAt == a.firstPublishedAt && v.lastPublishedAt == a.lastPublishedAt && v.updatedAt == a.lastPublishedAt.value
  }

  /** The item of a list shows a published article, at its place in the listing order. */
  predicate ShowsItem(x: Item<Article>, a: Article) {
    a.status == Published && ShowsPublication(x.value, a) && x.pos == Pos(a.createdAt, a.id)
  }

  lemma VisibleShows(a: Article)
    requires ValidPublication(a)
    ensures Visible(a).Some? <==> a.status == Published
    ensures Visible(a).Some? ==> ShowsPublication(Visible(a).value, a) && ShowsItem(ItemOf(Visible(a).value), a)
  {
  }

  lemma ShownOnce(v: Article, v': Article, a: Article)
    requires ShowsPublication(v, a) && ShowsPublication(v', a)
    ensures v == v'
  {
  }

  /** The lists are made of the published articles, an area's list of those published there. */
  lemma ListsShow(w: Library, page: Page, x: Item<Article>)
    requires Consistent(w) && !page.Detail?
    ensures SourceOf(w, page).Many?
    ensures x in SourceOf(w, page).items <==>
            exists id :: id in w && ShowsItem(x, w[id]) && (page.Area? ==> x.value.area == page.area)
  {
    hide Visible;
    hide ShowsPublication;
    hide ValidPublication;
    hide PublicSlug;
    if x in SourceOf(w, page).items {
      var id :| id in w && Visible(w[id]).Some? && x == ItemOf(Visible(w[id]).value);
      VisibleShows(w[id]);
      ShownArea(x.value, w[id]);
    }
    if id :| id in w && ShowsItem(x, w[id]) && (page.Area? ==> x.value.area == page.area) {
      VisibleShows(w[id]);
      ShownOnce(x.value, Visible(w[id]).value, w[id]);
      ShownArea(x.value, w[id]);
      assert x in Listed(w);
    }
  }

  lemma ShownArea(v: Article, a: Article)
    requires ShowsPublication(v, a)
    ensures a.published.Some? && v.area == a.published.value.area && v.slug == a.published.value.slug
  {
  }

  /** How much of the list a page shows: three cards, six articles, or all. */
  lemma PagesShow(source: Source, page: Page, decode: string -> Option<Pos>, content: Content)
    requires Reads(source, page, decode, content) && !page.Detail? && source.Many? && content.Cards?
    ensures forall x | x in content.cards :: x in source.items
    ensures forall i, j | 0 <= i < j < |content.cards| :: Before(ORDER, content.cards[i].pos, content.cards[j].pos)
    ensures page.Home? || page.Area? ==> |content.cards| <= 3 && (|content.cards| < 3 ==> forall x | x in source.items :: x in content.cards)
    ensures page.Home? || page.Area? ==>
              forall x, y | x in content.cards && y in source.items && y !in content.cards :: Before(ORDER, x.pos, y.pos)
    ensures page.Sitemap? ==> forall x | x in source.items :: x in content.cards
    ensures page.Index? && content.next.Some? ==> |content.cards| == 6
    ensures page.Index? ==> |content.cards| <= 6
    ensures page.Index? && page.cursor == "" && content.next.None? ==> forall x | x in source.items :: x in content.cards
  {
    if page.Index? {
      assert page.cursor == "" ==> Beyond(ORDER, source.items, None) == source.items;
    }
  }

  /**
    The detail page of a slug shows the article that is published under it, and
    is there exactly if there is one.
   */
  lemma DetailShows(w: Library, slug: string, decode: string -> Option<Pos>, content: Content)
    requires Consistent(w)
    ensures Reads(SourceOf(w, Detail(slug)), Detail(slug), decode, content) <==>
            content.Whole? && exists id :: id in w && w[id].status == Published && ShowsPublication(content.article, w[id]) &&
                                           content.article.slug == slug
  {
    hide Visible;
    hide ShowsPublication;
    hide ValidPublication;
    var found := Found(w, slug);
    if Reads(SourceOf(w, Detail(slug)), Detail(slug), decode, content) {
      assert Some(content.article) in found;
      var id :| id in w && PublicSlug(w[id], slug) && Some(content.article) == Visible(w[id]);
      VisibleShows(w[id]);
      ShownArea(content.article, w[id]);
    }
    if content.Whole? {
      if id :| id in w && w[id].status == Published && ShowsPublication(content.article, w[id]) && content.article.slug == slug {
        VisibleShows(w[id]);
        ShownOnce(content.article, Visible(w[id]).value, w[id]);
        ShownArea(content.article, w[id]);
        assert PublicSlug(w[id], slug);
        assert Some(content.article) in found;
        forall x | x in found ensures x == Some(content.article) {
          var id' :| id' in w && PublicSlug(w[id'], slug) && x == Visible(w[id']);
          assert id' == id;
        }
        assert found == {Some(content.article)};
      }
    }
  }

  /** An alias leads to the article that had it, and so to its present slug. */
  lemma AliasLeadsOn(w: Library, id: Id, slug: string)
    requires Consistent(w) && id in w && w[id].status == Published && w[id].published.Some? && slug in w[id].published.value.historical
    ensures exists v :: SourceOf(w, Detail(slug)) == One({Some(v)}) && ShowsPublication(v, w[id])
  {
    hide Visible;
    hide ShowsPublication;
    VisibleShows(w[id]);
    hide ValidPublication;
    assert PublicSlug(w[id], slug);
    var v := Visible(w[id]).value;
    assert Some(v) in Found(w, slug);
    forall x | x in Found(w, slug) ensures x == Some(v) {
      var id' :| id' in w && PublicSlug(w[id'], slug) && x == Visible(w[id']);
      assert id' == id;
    }
    assert Found(w, slug) == {Some(v)};
  }

  // ----- What a Publish shows -----

  /** The visitor is given the texts and the body of this draft, published at this time. */
  predicate ShowsDraft(v: Article, draft: Article, now: Time) {
    && v.id == draft.id && v.slug == draft.slug && v.title == draft.title && v.summary == draft.summary
    && v.area == draft.area && v.coverId == draft.coverId && v.publishedBody == draft.draftBody && v.draftBody == None
    && v.updatedAt == now && v.lastPublishedAt == Some(now)
    && v.firstPublishedAt == if draft.firstPublishedAt.Some? then draft.firstPublishedAt else Some(now)
  }

  lemma PublishedShows(draft: Article, now: Time, d: Article, v: Article)
    requires W.PublishedOf(draft, now, d) && ShowsPublication(v, d)
    ensures ShowsDraft(v, draft, now) && v.slug == draft.slug == d.published.value.slug && d.status == Published
  {
  }

  /**
    From an effective Publish on, the detail page under the draft's slug shows the
    texts and the body that were last saved before, dated with the time of the call.
   */
  lemma PublishIsSeen(w: R.World, steps: seq<R.Step>, step: R.Step, decode: string -> Option<Pos>)
    requires H.Init(w) && H.Possible(w, steps) && R.Enabled(H.Run(w, steps), step) && step.Commit? && step.applies
    requires H.Run(w, steps).clients[step.client].op.request.Publish?
    ensures var before, after := H.Run(w, steps).store.rows, R.Next(H.Run(w, steps), step).store.rows;
            var id := H.Run(w, steps).clients[step.client].op.request.id;
            exists k, m, now, v ::
              && k in before && k.id == id && W.ClockRead(steps, step.client, m, now) && ShowsDraft(v, before[k].article, now)
              && Reads(SourceOf(A.LibraryOf(after), Detail(before[k].article.slug)), Detail(before[k].article.slug), decode, Whole(v))
  {
    hide R.Enabled;
    hide R.Next;
    hide H.Run;
    hide H.Possible;
    hide H.Init;
    hide W.ServiceRead;
    hide W.ClockRead;
    hide W.PublishedOf;
    hide ShowsDraft;
    hide A.LibraryOf;
    hide Reads;
    hide Consistent;
    hide I.WorldOk;
    hide T.StoreOk;
    hide T.KeysOk;
    var w1 := H.Run(w, steps);
    W.CommitClientIn(w1, step);
    var w2 := R.Next(w1, step);
    var o := w1.clients[step.client].op;
    W.UpdateStores(w, steps, step);
    var k, k' :| k in w1.store.rows && k' in w2.store.rows && k.id == R.RequestId(o.request) == k'.id &&
                 W.NewVersion(w, steps, step.client, o.request, w1.store.rows[k], w2.store.rows[k']);
    var a, d := w1.store.rows[k].article, w2.store.rows[k'].article;
    var m: nat, now :| W.ServiceRead(w, steps, step.client, m, w1.store.rows[k]) && W.ClockRead(steps, step.client, m, now) && W.PublishedOf(a, now, d);
    StepStore(w, steps, step);
    A.LibraryConsistent(w2.store);
    A.LibraryHas(w2.store.rows, k');
    var lib := A.LibraryOf(w2.store.rows);
    PublishedStatus(a, now, d);
    StoredShows(lib, k'.id);
    var v := Visible(d).value;
    PublishedShows(a, now, d, v);
    DetailShows(lib, a.slug, decode, Whole(v));
  }

  lemma PublishedStatus(a: Article, now: Time, d: Article)
    requires W.PublishedOf(a, now, d)
    ensures d.status == Published && d.published.Some? && d.published.value.slug == a.slug
  {
  }

  lemma StoredShows(w: Library, id: Id)
    requires Consistent(w) && id in w && w[id].status == Published
    ensures Visible(w[id]).Some? && ShowsPublication(Visible(w[id]).value, w[id])
  {
    VisibleShows(w[id]);
  }

  lemma StepStore(w: R.World, steps: seq<R.Step>, step: R.Step)
    requires H.Init(w) && H.Possible(w, steps) && R.Enabled(H.Run(w, steps), step)
    ensures T.StoreOk(R.Next(H.Run(w, steps), step).store)
  {
    hide H.Init;
    hide H.Run;
    hide H.Possible;
    hide R.Enabled;
    hide R.Next;
    hide T.StoreOk;
    H.RunInvariant(w, steps);
    NextStore(H.Run(w, steps), step);
  }

  lemma NextStore(w: R.World, step: R.Step)
    requires I.WorldOk(w) && R.Enabled(w, step)
    ensures T.StoreOk(R.Next(w, step).store)
  {
    hide T.StoreOk;
    hide R.Enabled;
    hide R.Next;
    K.StepKept(w, step);
  }
}
