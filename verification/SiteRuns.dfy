/**
  The cache, the articles and the notifications together: over every
  interleaving, a page served from the cache is what an uncached render shows.
  internal/web/public/cache.go and articles.go, internal/articles/service.go.
 */
module SiteRuns {
  import opened Outcomes
  import opened Paging
  import C = CacheModel
  import opened PublicSite

  /** The fixed parts of a site: the cache bounds, the templates and the cursor decoding. */
  datatype Setup = Setup(config: C.Config, template: (Page, Content) -> C.Bytes, decode: string -> Option<Pos>)

  /** The invalidations of one change: at lists where those already made are in the log. */
  datatype Pending = Pending(events: seq<C.Event>, at: seq<nat>, base: nat)

  /** A fill: the version of the articles when it began and when it ended. */
  datatype Fill = Fill(start: nat, end: nat)

  /** All versions of the articles so far, with the change after each of them. */
  datatype Site = Site(
    cache: C.State, worlds: seq<Library>, changes: seq<Change>, notices: seq<Pending>, fills: seq<Fill>)

  datatype Step =
    | Act(change: Change)
    | Notify(notice: nat)
    | Visit(key: string, now: C.Instant)
    | Done(flight: nat, result: Result<C.Bytes>, now: C.Instant)

  ghost predicate SameSource(site: Site, page: Page, from: nat, to: nat) {
    forall v | from <= v <= to && v < |site.worlds| && from < |site.worlds| ::
      SourceOf(site.worlds[v], page) == SourceOf(site.worlds[from], page)
  }

  ghost predicate RendersTo(setup: Setup, w: Library, page: Page, bytes: C.Bytes) {
    exists content :: Reads(SourceOf(w, page), page, setup.decode, content) && bytes == setup.template(page, content)
  }

  /** A fill reads at any moments between start and end; when nothing it depends on changes meanwhile, it renders that. */
  ghost predicate FillRenders(setup: Setup, site: Site, fill: Fill, page: Page, bytes: C.Bytes) {
    fill.start < |site.worlds| && (SameSource(site, page, fill.start, fill.end) ==> RendersTo(setup, site.worlds[fill.start], page, bytes))
  }

  predicate Leads(s: C.State, key: string, now: C.Instant) {
    !C.Current(s, key, now) && !C.Shared(s, key)
  }

  ghost predicate Enabled(setup: Setup, site: Site, step: Step) {
    && C.Linked(site.cache) && site.worlds != []
    && match step
       case Act(change) =>
         var w := site.worlds[|site.worlds| - 1];
         Possible(w, change) && Consistent(Changed(w, change))
       case Notify(i) => i < |site.notices| && |site.notices[i].at| < |site.notices[i].events|
       case Visit(key, now) => true
       case Done(id, result, now) =>
         && id < |site.cache.flights| && id < |site.fills| && site.cache.flights[id].result.None?
         && (result.Ok? ==> forall page | KeyOf(page) == site.cache.flights[id].key ::
               FillRenders(setup, site, Fill(site.fills[id].start, |site.worlds| - 1), page, result.value))
  }

  ghost function Next(setup: Setup, site: Site, step: Step): Site
    requires Enabled(setup, site, step)
  {
    match step
    case Act(change) =>
      var w := site.worlds[|site.worlds| - 1];
      site.(worlds := site.worlds + [Changed(w, change)], changes := site.changes + [change],
            notices := site.notices + [Pending(Notice(w, change), [], |site.cache.log|)])
    case Notify(i) =>
      var n := site.notices[i];
      site.(cache := C.Invalidate(site.cache, n.events[|n.at|]),
            notices := site.notices[i := n.(at := n.at + [|site.cache.log|])])
    case Visit(key, now) =>
      site.(cache := C.Begin(site.cache, key, now).0,
            fills := if Leads(site.cache, key, now) then site.fills + [Fill(|site.worlds| - 1, 0)] else site.fills)
    case Done(id, result, now) =>
      site.(cache := C.Finish(setup.config, site.cache, id, result, now),
            fills := site.fills[id := Fill(site.fills[id].start, |site.worlds| - 1)])
  }

  // ----- The invariant -----

  ghost predicate HistoryOk(site: Site) {
    && |site.worlds| == |site.changes| + 1 == |site.notices| + 1
    && (forall v | 0 <= v < |site.worlds| :: Consistent(site.worlds[v]))
    && (forall i | 0 <= i < |site.changes| ::
          && Possible(site.worlds[i], site.changes[i]) && site.worlds[i + 1] == Changed(site.worlds[i], site.changes[i])
          && site.notices[i].events == Notice(site.worlds[i], site.changes[i]))
  }

  /** What has been delivered of a notice is in the log, after the commit of its change. */
  ghost predicate NoticeOk(log: seq<C.Event>, n: Pending) {
    && |n.at| <= |n.events| && n.base <= |log|
    && forall j | 0 <= j < |n.at| :: n.base <= n.at[j] < |log| && log[n.at[j]] == n.events[j]
  }

  /** A change after the start of a fill was committed after the invalidations that the fill began with. */
  ghost predicate FillOk(site: Site, id: nat)
    requires id < |site.fills| && id < |site.cache.flights|
  {
    && site.fills[id].start < |site.worlds|
    && forall i | site.fills[id].start <= i < |site.notices| :: site.cache.flights[id].began <= site.notices[i].base
  }

  ghost predicate ResultOk(setup: Setup, site: Site, id: nat)
    requires id < |site.fills| && id < |site.cache.flights|
  {
    var f := site.cache.flights[id];
    f.result.Some? && f.result.value.Ok? ==>
      && site.fills[id].end < |site.worlds|
      && forall page | KeyOf(page) == f.key :: FillRenders(setup, site, site.fills[id], page, f.result.value.value)
  }

  ghost predicate SiteOk(setup: Setup, site: Site) {
    && HistoryOk(site)
    && C.Sound(setup.config, site.cache)
    && (forall i | 0 <= i < |site.notices| :: NoticeOk(site.cache.log, site.notices[i]))
    && |site.fills| == |site.cache.flights|
    && (forall id | 0 <= id < |site.fills| :: FillOk(site, id) && ResultOk(setup, site, id))
  }

  // ----- Steps keep it -----

  /** More versions do not change what earlier ones say. */
  lemma LaterRenders(setup: Setup, site: Site, site': Site, fill: Fill, page: Page, bytes: C.Bytes)
    requires site.worlds <= site'.worlds && fill.end < |site.worlds|
    requires FillRenders(setup, site, fill, page, bytes)
    ensures FillRenders(setup, site', fill, page, bytes)
  {
    if SameSource(site', page, fill.start, fill.end) {
      forall v | fill.start <= v <= fill.end
        ensures SourceOf(site.worlds[v], page) == SourceOf(site.worlds[fill.start], page)
      {
        assert site'.worlds[v] == site.worlds[v] && site'.worlds[fill.start] == site.worlds[fill.start];
      }
    }
  }

  lemma LaterResult(setup: Setup, site: Site, site': Site, id: nat)
    requires id < |site.fills| && id < |site.cache.flights| && id < |site'.fills| && id < |site'.cache.flights|
    requires ResultOk(setup, site, id) && site.worlds <= site'.worlds
    requires site'.fills[id] == site.fills[id] && site'.cache.flights[id] == site.cache.flights[id]
    ensures ResultOk(setup, site', id)
  {
    var f := site.cache.flights[id];
    if f.result.Some? && f.result.value.Ok? {
      forall page | KeyOf(page) == f.key ensures FillRenders(setup, site', site.fills[id], page, f.result.value.value) {
        LaterRenders(setup, site, site', site.fills[id], page, f.result.value.value);
      }
    }
  }

  lemma ActKept(setup: Setup, site: Site, step: Step)
    requires SiteOk(setup, site) && step.Act? && Enabled(setup, site, step)
    ensures SiteOk(setup, Next(setup, site, step))
  {
    hide C.Sound;
    hide Changed;
    hide Consistent;
    hide ResultOk;
    hide Notice;
    var site' := Next(setup, site, step);
    forall id | 0 <= id < |site'.fills| ensures FillOk(site', id) && ResultOk(setup, site', id) {
      BeganBefore(setup, site, id);
      LaterResult(setup, site, site', id);
    }
  }

  lemma BeganBefore(setup: Setup, site: Site, id: nat)
    requires C.Sound(setup.config, site.cache) && id < |site.cache.flights|
    ensures site.cache.flights[id].began <= |site.cache.log|
  {
    assert C.FlightOk(site.cache, site.cache.flights[id]);
  }

  lemma InvalidateHistory(s: C.State, event: C.Event)
    requires C.Linked(s)
    ensures C.Invalidate(s, event).log == s.log + [event] && C.Invalidate(s, event).flights == s.flights
  {
    hide C.Linked;
  }

  lemma LongerLog(log: seq<C.Event>, event: C.Event, n: Pending)
    requires NoticeOk(log, n)
    ensures NoticeOk(log + [event], n)
    ensures |n.at| < |n.events| && event == n.events[|n.at|] ==> NoticeOk(log + [event], n.(at := n.at + [|log|]))
  {
  }

  lemma NotifyKept(setup: Setup, site: Site, step: Step)
    requires SiteOk(setup, site) && step.Notify? && Enabled(setup, site, step)
    ensures SiteOk(setup, Next(setup, site, step))
  {
    hide C.Sound;
    hide C.Linked;
    hide C.Invalidate;
    hide ResultOk;
    hide Notice;
    hide Changed;
    hide Consistent;
    hide NoticeOk;
    var n := site.notices[step.notice];
    var event := n.events[|n.at|];
    C.DropSound(setup.config, site.cache, event);
    InvalidateHistory(site.cache, event);
    var site' := Next(setup, site, step);
    forall i | 0 <= i < |site'.notices| ensures NoticeOk(site'.cache.log, site'.notices[i]) {
      LongerLog(site.cache.log, event, site.notices[i]);
    }
    forall id | 0 <= id < |site'.fills| ensures FillOk(site', id) && ResultOk(setup, site', id) {
      assert FillOk(site, id);
      LaterResult(setup, site, site', id);
    }
  }

  lemma BeginHistory(s: C.State, key: string, now: C.Instant)
    ensures var s' := C.Begin(s, key, now).0;
            && s'.log == s.log
            && s'.flights == if Leads(s, key, now) then s.flights + [C.Flight(key, s.generation, |s.log|, None)] else s.flights
  {
  }

  lemma VisitKept(setup: Setup, site: Site, step: Step)
    requires SiteOk(setup, site) && step.Visit? && Enabled(setup, site, step)
    ensures SiteOk(setup, Next(setup, site, step))
  {
    hide C.Sound;
    hide C.Linked;
    hide C.Begin;
    hide ResultOk;
    hide Notice;
    hide Changed;
    hide Consistent;
    hide NoticeOk;
    hide Leads;
    C.EnterSound(setup.config, site.cache, step.key, step.now);
    BeginHistory(site.cache, step.key, step.now);
    var site' := Next(setup, site, step);
    forall id | 0 <= id < |site'.fills| ensures FillOk(site', id) && ResultOk(setup, site', id) {
      if id < |site.fills| {
        assert FillOk(site, id);
        LaterResult(setup, site, site', id);
      } else {
        NewFill(setup, site', id);
      }
    }
  }

  lemma NewFill(setup: Setup, site: Site, id: nat)
    requires id < |site.fills| && id < |site.cache.flights| && site.cache.flights[id].result.None?
    requires site.fills[id].start == |site.worlds| - 1 && |site.notices| == |site.worlds| - 1
    ensures FillOk(site, id) && ResultOk(setup, site, id)
  {
  }

  lemma FinishHistory(c: C.Config, s: C.State, id: nat, result: Result<C.Bytes>, now: C.Instant)
    requires C.Linked(s) && id < |s.flights|
    ensures var s' := C.Finish(c, s, id, result, now);
            s'.log == s.log && s'.flights == s.flights[id := s.flights[id].(result := Some(result))]
  {
    hide C.Linked;
    hide C.Insert;
    var f := s.flights[id];
    var s1 := s.(pending := if f.key in s.pending && s.pending[f.key] == id then s.pending - {f.key} else s.pending,
                 flights := s.flights[id := f.(result := Some(result))]);
    C.LinkedFields(s, s1);
    if result.Ok? {
      C.InsertBounded(c, s1, f.key, result.value, now, id);
    }
  }

  /** The step stores no page of a fill that the cache takes for current although it is not. */
  ghost predicate StepFine(setup: Setup, site: Site, step: Step)
    requires Enabled(setup, site, step)
  {
    step.Done? ==> C.Fine(setup.config, site.cache, C.Leave(step.flight, step.result, step.now))
  }

  lemma DoneKept(setup: Setup, site: Site, step: Step)
    requires SiteOk(setup, site) && step.Done? && Enabled(setup, site, step) && StepFine(setup, site, step)
    ensures SiteOk(setup, Next(setup, site, step))
  {
    hide C.Sound;
    hide C.Linked;
    hide C.Finish;
    hide FillRenders;
    hide Notice;
    hide Changed;
    hide Consistent;
    hide NoticeOk;
    C.LeaveSound(setup.config, site.cache, step.flight, step.result, step.now);
    FinishHistory(setup.config, site.cache, step.flight, step.result, step.now);
    var site' := Next(setup, site, step);
    forall id | 0 <= id < |site'.fills| ensures FillOk(site', id) && ResultOk(setup, site', id) {
      assert FillOk(site, id);
      if id != step.flight {
        LaterResult(setup, site, site', id);
      } else {
        SameWorlds(setup, site, site');
      }
    }
  }

  lemma SameWorlds(setup: Setup, site: Site, site': Site)
    requires site'.worlds == site.worlds
    ensures forall fill, page, bytes | FillRenders(setup, site, fill, page, bytes) :: FillRenders(setup, site', fill, page, bytes)
  {
    forall fill, page, bytes | FillRenders(setup, site, fill, page, bytes) ensures FillRenders(setup, site', fill, page, bytes) {
      if SameSource(site', page, fill.start, fill.end) {
        assert SameSource(site, page, fill.start, fill.end);
      }
    }
  }

  lemma StepKept(setup: Setup, site: Site, step: Step)
    requires SiteOk(setup, site) && Enabled(setup, site, step) && StepFine(setup, site, step)
    ensures SiteOk(setup, Next(setup, site, step))
  {
    hide SiteOk;
    hide Enabled;
    hide Next;
    hide StepFine;
    match step
    case Act(_) => ActKept(setup, site, step);
    case Notify(_) => NotifyKept(setup, site, step);
    case Visit(_, _) => VisitKept(setup, site, step);
    case Done(_, _, _) => DoneKept(setup, site, step);
  }

  // ----- Runs -----

  ghost predicate CanRun(setup: Setup, site: Site, steps: seq<Step>)
    decreases |steps|
  {
    steps == [] || (Enabled(setup, site, steps[0]) && CanRun(setup, Next(setup, site, steps[0]), steps[1..]))
  }

  ghost function Run(setup: Setup, site: Site, steps: seq<Step>): Site
    requires CanRun(setup, site, steps)
    decreases |steps|
  {
    if steps == [] then site else Run(setup, Next(setup, site, steps[0]), steps[1..])
  }

  lemma LogGrows(setup: Setup, site: Site, step: Step)
    requires Enabled(setup, site, step)
    ensures |site.cache.log| <= |Next(setup, site, step).cache.log|
  {
    hide C.Linked;
    hide C.Begin;
    hide C.Finish;
    hide C.Invalidate;
    match step
    case Act(_) =>
    case Notify(i) => InvalidateHistory(site.cache, site.notices[i].events[|site.notices[i].at|]);
    case Visit(key, now) => BeginHistory(site.cache, key, now);
    case Done(id, result, now) => FinishHistory(setup.config, site.cache, id, result, now);
  }

  lemma {:induction false} RunLogGrows(setup: Setup, site: Site, steps: seq<Step>)
    requires CanRun(setup, site, steps)
    ensures |site.cache.log| <= |Run(setup, site, steps).cache.log|
    decreases |steps|
  {
    hide Enabled;
    hide Next;
    if steps != [] {
      LogGrows(setup, site, steps[0]);
      RunLogGrows(setup, Next(setup, site, steps[0]), steps[1..]);
    }
  }

  /** No step of the run stores such a page. */
  ghost predicate RunFine(setup: Setup, site: Site, steps: seq<Step>)
    requires CanRun(setup, site, steps)
    decreases |steps|
  {
    steps == [] || (StepFine(setup, site, steps[0]) && RunFine(setup, Next(setup, site, steps[0]), steps[1..]))
  }

  /** Fewer than 2^64 notifications never wrap the counter of the cache. */
  lemma {:induction false} FewNotificationsFine(setup: Setup, site: Site, steps: seq<Step>)
    requires CanRun(setup, site, steps) && |Run(setup, site, steps).cache.log| < C.GENERATIONS
    ensures RunFine(setup, site, steps)
    decreases |steps|
  {
    hide Enabled;
    hide Next;
    RunLogGrows(setup, site, steps);
    if steps != [] {
      FewFine(setup, site, steps[0]);
      hide StepFine;
      FewNotificationsFine(setup, Next(setup, site, steps[0]), steps[1..]);
    }
  }

  lemma FewFine(setup: Setup, site: Site, step: Step)
    requires Enabled(setup, site, step) && |site.cache.log| < C.GENERATIONS
    ensures StepFine(setup, site, step)
  {
    hide FillRenders;
    hide C.Linked;
  }

  lemma {:induction false} RunKept(setup: Setup, site: Site, steps: seq<Step>)
    requires SiteOk(setup, site) && CanRun(setup, site, steps) && RunFine(setup, site, steps)
    ensures SiteOk(setup, Run(setup, site, steps))
    decreases |steps|
  {
    hide SiteOk;
    hide Enabled;
    hide Next;
    hide StepFine;
    if steps != [] {
      StepKept(setup, site, steps[0]);
      RunKept(setup, Next(setup, site, steps[0]), steps[1..]);
    }
  }

  /** An empty cache over consistent articles. */
  function Start(w: Library): Site { Site(C.Init(), [w], [], [], []) }

  lemma StartOk(setup: Setup, w: Library)
    requires Consistent(w)
    ensures SiteOk(setup, Start(w))
  {
    C.InitSound(setup.config);
  }

  // ----- Agreement with the uncached render -----

  /** Every change that altered the page has been notified to the end. */
  ghost predicate Notified(site: Site, page: Page) {
    forall i | 0 <= i < |site.notices| && i + 1 < |site.worlds| && SourceOf(site.worlds[i], page) != SourceOf(site.worlds[i + 1], page) ::
      |site.notices[i].at| == |site.notices[i].events|
  }

  /** A change that altered the page and was notified left its mark in the log after its commit. */
  lemma NotifiedInLog(setup: Setup, site: Site, page: Page, i: nat)
    requires SiteOk(setup, site) && Notified(site, page) && i < |site.notices|
    requires SourceOf(site.worlds[i], page) != SourceOf(site.worlds[i + 1], page)
    ensures exists p :: site.notices[i].base <= p < |site.cache.log| && C.Covers(site.cache.log[p], KeyOf(page))
  {
    hide C.Sound;
    hide FillOk;
    hide ResultOk;
    hide C.Covers;
    hide SourceOf;
    FootprintComplete(site.worlds[i], site.changes[i], page);
    var n := site.notices[i];
    var j :| 0 <= j < |n.events| && C.Covers(n.events[j], KeyOf(page));
    assert NoticeOk(site.cache.log, n);
    assert site.cache.log[n.at[j]] == n.events[j];
  }

  /** No invalidation of the page since the fill began. */
  ghost predicate Untouched(site: Site, page: Page, id: nat)
    requires id < |site.cache.flights|
  {
    forall p | site.cache.flights[id].began <= p < |site.cache.log| :: !C.Covers(site.cache.log[p], KeyOf(page))
  }

  /** What such a fill renders from has not changed since it began. */
  lemma {:induction false} SourceKept(setup: Setup, site: Site, page: Page, id: nat, v: nat)
    requires SiteOk(setup, site) && Notified(site, page)
    requires id < |site.fills| && Untouched(site, page, id) && site.fills[id].start <= v < |site.worlds|
    ensures SourceOf(site.worlds[v], page) == SourceOf(site.worlds[site.fills[id].start], page)
    decreases v
  {
    hide C.Sound;
    hide C.Covers;
    hide ResultOk;
    hide NoticeOk;
    hide SourceOf;
    hide Notified;
    hide KeyOf;
    hide Consistent;
    hide Changed;
    hide Notice;
    assert FillOk(site, id);
    if v > site.fills[id].start {
      SourceKept(setup, site, page, id, v - 1);
      if SourceOf(site.worlds[v - 1], page) != SourceOf(site.worlds[v - 1 + 1], page) {
        NotifiedInLog(setup, site, page, v - 1);
      }
    }
  }

  lemma EntryFresh(setup: Setup, site: Site, key: string)
    requires C.Sound(setup.config, site.cache) && key in site.cache.entries
    ensures var e := site.cache.entries[key];
            && e.flight < |site.cache.flights| && site.cache.flights[e.flight].key == key
            && site.cache.flights[e.flight].result == Some(Ok(e.value))
            && forall p | site.cache.flights[e.flight].began <= p < |site.cache.log| :: !C.Covers(site.cache.log[p], key)
  {
    assert C.EntryOk(site.cache, key, site.cache.entries[key]);
  }

  /**
    Over every interleaving of visits, fills, service calls and notifications: a
    page served from the cache is what an uncached render would show now, as soon
    as the changes that altered that page have been notified.
   */
  lemma ServedPageIsCurrent(setup: Setup, w: Library, steps: seq<Step>, page: Page)
    requires Consistent(w) && CanRun(setup, Start(w), steps) && RunFine(setup, Start(w), steps)
    requires Notified(Run(setup, Start(w), steps), page)
    requires KeyOf(page) in Run(setup, Start(w), steps).cache.entries
    ensures var site := Run(setup, Start(w), steps);
            && site.worlds != []
            && RendersTo(setup, site.worlds[|site.worlds| - 1], page, site.cache.entries[KeyOf(page)].value)
  {
    hide CanRun;
    hide Run;
    hide RunFine;
    hide Notified;
    hide SourceOf;
    hide KeyOf;
    StartOk(setup, w);
    RunKept(setup, Start(w), steps);
    EntryRenders(setup, Run(setup, Start(w), steps), page);
  }

  lemma EntryRenders(setup: Setup, site: Site, page: Page)
    requires SiteOk(setup, site) && Notified(site, page) && KeyOf(page) in site.cache.entries
    ensures site.worlds != [] && RendersTo(setup, site.worlds[|site.worlds| - 1], page, site.cache.entries[KeyOf(page)].value)
  {
    hide C.Sound;
    hide Notified;
    hide SourceOf;
    hide KeyOf;
    hide Reads;
    hide NoticeOk;
    hide Consistent;
    EntryFresh(setup, site, KeyOf(page));
    var id := site.cache.entries[KeyOf(page)].flight;
    var fill := site.fills[id];
    assert FillOk(site, id) && ResultOk(setup, site, id);
    forall v | fill.start <= v < |site.worlds| ensures SourceOf(site.worlds[v], page) == SourceOf(site.worlds[fill.start], page) {
      SourceKept(setup, site, page, id, v);
    }
    assert SameSource(site, page, fill.start, fill.end);
  }

  /** A fill that is joined and not misjudged began after every invalidation of its key. */
  lemma JoinedUntouched(setup: Setup, site: Site, page: Page, now: C.Instant)
    requires C.Sound(setup.config, site.cache) && C.Begin(site.cache, KeyOf(page), now).1.Join?
    requires !C.JoinsMisjudged(site.cache, KeyOf(page), now)
    ensures var id := C.Begin(site.cache, KeyOf(page), now).1.flight;
            id < |site.cache.flights| && Untouched(site, page, id)
  {
    hide KeyOf;
    hide C.Linked;
    C.ServesFresh(setup.config, site.cache, KeyOf(page), now);
    BeginHistory(site.cache, KeyOf(page), now);
  }

  /**
    The same for a visit that finds no entry and waits for a fill already under
    way: nothing the page is rendered from has changed since that fill began.
   */
  lemma JoinedFillIsCurrent(setup: Setup, w: Library, steps: seq<Step>, page: Page, now: C.Instant)
    requires Consistent(w) && CanRun(setup, Start(w), steps) && RunFine(setup, Start(w), steps)
    requires Notified(Run(setup, Start(w), steps), page)
    requires C.Begin(Run(setup, Start(w), steps).cache, KeyOf(page), now).1.Join?
    requires !C.JoinsMisjudged(Run(setup, Start(w), steps).cache, KeyOf(page), now)
    ensures var site := Run(setup, Start(w), steps);
            var id := C.Begin(site.cache, KeyOf(page), now).1.flight;
            && id < |site.fills| && site.fills[id].start < |site.worlds|
            && SourceOf(site.worlds[|site.worlds| - 1], page) == SourceOf(site.worlds[site.fills[id].start], page)
  {
    hide CanRun;
    hide Run;
    hide RunFine;
    hide Notified;
    hide SourceOf;
    hide KeyOf;
    hide C.Sound;
    StartOk(setup, w);
    RunKept(setup, Start(w), steps);
    var site := Run(setup, Start(w), steps);
    var id := site.cache.pending[KeyOf(page)];
    JoinedUntouched(setup, site, page, now);
    hide Untouched;
    assert FillOk(site, id);
    SourceKept(setup, site, page, id, |site.worlds| - 1);
  }
}
