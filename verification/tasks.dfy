/** The background monitoring loop: repeated passes over the due work
    (promote stale mangas to manga jobs, run manga jobs, run chapter jobs,
    run chapter edits) until nothing is due, then one notification per
    touched library, then a one-hour wait. The jobs themselves are modelled
    by the job pipeline; here each job is given by how its run ended. The
    stop signal is given by the index of the first check that sees it set. */
module Tasks {
  import opened PyValues
  import Processes

  // ---- Inputs of one pass ----

  /** A stale manga: its url, its library and what
      `MonitorManga.objects.get_or_create` did (created a job, found one, or
      raised; as written it raises FieldError, since the job has no
      `library` or `manga` field). */
  datatype Promotion = Promotion(url: Json, library: nat, created: Result<bool>)

  /** An eligible manga job: its key, what reading `manga_monitor.library`
      after the run gives (the job has no such field as written, so the read
      raises AttributeError), and whether an exception escaped the job's
      `update` (its own handler catches the rest). */
  datatype MangaRun = MangaRun(pk: nat, library: Result<nat>, raised: bool)

  /** How a chapter job's `update` ended. */
  datatype Signal = Done | AlreadyDownloaded | NoPages | Raised

  datatype ChapterRun = ChapterRun(pk: nat, library: nat, signal: Signal)

  /** A chapter edit: its key, the library reached through its chapter
      (the lookup may raise) and whether its `update` raised. */
  datatype EditRun = EditRun(pk: nat, library: Result<nat>, raised: bool)

  /** What the four queries of one pass return, in query order. */
  datatype PassInput = PassInput(stale: seq<Promotion>, mangaJobs: seq<MangaRun>, chapterJobs: seq<ChapterRun>, edits: seq<EditRun>)

  /** What the loop does, in order. */
  datatype Event =
    | ClearCache
    | Promote(promotion: Promotion)
    | RunManga(mangaRun: MangaRun)
    | RunChapter(chapterRun: ChapterRun)
    | DeleteSkipped(pks: seq<nat>)
    | RunEdit(editRun: EditRun)
    | NotifyLibrary(library: nat)

  /** What `process_exists` answers at the head of the inner loop: work
      is due, nothing is due, or the record store could not be reached
      (OperationalError). */
  datatype Answer = Pending | Clear | Down

  /** One turn of the inner loop: the answer of `process_exists` and what
      the pass's queries would return. */
  datatype Round = Round(answer: Answer, pass: PassInput)

  /** How the inner loop ended: nothing more was due, the stop signal was
      seen at its head, a pass was cut short by the stop signal, or the
      record store could not be reached. */
  datatype Exit = Drained | StopSeen | Interrupted | Unreachable

  /** How a sweep ended: `monitoring` returned on the stop signal (after the
      notifications or before them), the notifications went out, or the
      record store was unreachable. */
  datatype SweepEnd = Returned(notified: bool) | Completed | StoreDown

  /** What one turn of the outer loop is given: the time it starts, the
      inner loop's turns, and the time the sweep ends. */
  datatype TickInput = TickInput(now: Processes.Instant, rounds: seq<Round>, finishedAt: Processes.Instant)

  // ---- The queries, on the store ----

  /** The tables the queries read: mangas by url, the two job tables by
      key, and the keys of the pending chapter edits. */
  datatype Snapshot = Snapshot(mangas: map<Json, Processes.MangaRow>, mangaJobs: map<nat, Processes.MangaJob>,
                               chapterJobs: map<nat, Processes.ChapterJob>, edits: set<nat>)

  /** `Manga.objects.filter(last_update__lt=threshold)`: every stale manga
      once, with its library. */
  predicate StaleQuery(ps: seq<Promotion>, mangas: map<Json, Processes.MangaRow>, now: Processes.Instant) {
    && (forall i :: 0 <= i < |ps| ==>
          ps[i].url in mangas && Processes.Stale(mangas[ps[i].url].lastUpdate, now) && ps[i].library == mangas[ps[i].url].library)
    && (forall i, j :: 0 <= i < j < |ps| ==> ps[i].url != ps[j].url)
    && (forall u :: u in mangas && Processes.Stale(mangas[u].lastUpdate, now) ==> exists i :: 0 <= i < |ps| && ps[i].url == u)
  }

  /** `MonitorManga.objects.filter(Q(last_run__lt=one_hour_ago) |
      Q(last_run__isnull=True))`: every eligible manga job once. */
  predicate MangaJobQuery(ms: seq<MangaRun>, jobs: map<nat, Processes.MangaJob>, now: Processes.Instant) {
    && (forall i :: 0 <= i < |ms| ==> ms[i].pk in jobs && Processes.Eligible(jobs[ms[i].pk].lastRun, now))
    && (forall i, j :: 0 <= i < j < |ms| ==> ms[i].pk != ms[j].pk)
    && (forall k :: k in jobs && Processes.Eligible(jobs[k].lastRun, now) ==> exists i :: 0 <= i < |ms| && ms[i].pk == k)
  }

  /** The same filter on `MonitorChapter`. */
  predicate ChapterJobQuery(cs: seq<ChapterRun>, jobs: map<nat, Processes.ChapterJob>, now: Processes.Instant) {
    && (forall i :: 0 <= i < |cs| ==> cs[i].pk in jobs && Processes.Eligible(jobs[cs[i].pk].lastRun, now))
    && (forall i, j :: 0 <= i < j < |cs| ==> cs[i].pk != cs[j].pk)
    && (forall k :: k in jobs && Processes.Eligible(jobs[k].lastRun, now) ==> exists i :: 0 <= i < |cs| && cs[i].pk == k)
  }

  /** `EditChapter.objects.all()`: every edit once. */
  predicate EditQuery(es: seq<EditRun>, edits: set<nat>) {
    && (forall i :: 0 <= i < |es| ==> es[i].pk in edits)
    && (forall i, j :: 0 <= i < j < |es| ==> es[i].pk != es[j].pk)
    && (forall k :: k in edits ==> exists i :: 0 <= i < |es| && es[i].pk == k)
  }

  /** A pass whose four queries all read the store `s` at `now`. In the
      loop the later queries run after the earlier phases changed the
      store; this is the store `process_exists` just read. */
  predicate QueriedFrom(p: PassInput, s: Snapshot, now: Processes.Instant) {
    && StaleQuery(p.stale, s.mangas, now)
    && MangaJobQuery(p.mangaJobs, s.mangaJobs, now)
    && ChapterJobQuery(p.chapterJobs, s.chapterJobs, now)
    && EditQuery(p.edits, s.edits)
  }

  /** What `process_exists` answers on the store `s`, unless the store is
      unreachable. */
  predicate AnsweredFrom(a: Answer, s: Snapshot, now: Processes.Instant) {
    a != Down ==> (a == Pending <==> Processes.ProcessExists(s.mangas, s.mangaJobs, s.chapterJobs, |s.edits|, now))
  }

  /** `process_exists` is true exactly when one of the pass's queries on
      the same store would return a row: a `Clear` answer means a pass
      would find nothing to do, and a `Pending` one that it finds work. */
  lemma ProcessExistsIffWork(p: PassInput, s: Snapshot, now: Processes.Instant)
    requires QueriedFrom(p, s, now)
    ensures Processes.ProcessExists(s.mangas, s.mangaJobs, s.chapterJobs, |s.edits|, now)
        <==> (|p.stale| > 0 || |p.mangaJobs| > 0 || |p.chapterJobs| > 0 || |p.edits| > 0)
  {
    if exists u :: u in s.mangas && Processes.Stale(s.mangas[u].lastUpdate, now) {
      var u :| u in s.mangas && Processes.Stale(s.mangas[u].lastUpdate, now);
      var i :| 0 <= i < |p.stale| && p.stale[i].url == u;
    }
    if exists k :: k in s.mangaJobs && Processes.Eligible(s.mangaJobs[k].lastRun, now) {
      var k :| k in s.mangaJobs && Processes.Eligible(s.mangaJobs[k].lastRun, now);
      var i :| 0 <= i < |p.mangaJobs| && p.mangaJobs[i].pk == k;
    }
    if exists k :: k in s.chapterJobs && Processes.Eligible(s.chapterJobs[k].lastRun, now) {
      var k :| k in s.chapterJobs && Processes.Eligible(s.chapterJobs[k].lastRun, now);
      var i :| 0 <= i < |p.chapterJobs| && p.chapterJobs[i].pk == k;
    }
    if |p.stale| > 0 {
      assert p.stale[0].url in s.mangas;
    }
    if |p.mangaJobs| > 0 {
      assert p.mangaJobs[0].pk in s.mangaJobs;
    }
    if |p.chapterJobs| > 0 {
      assert p.chapterJobs[0].pk in s.chapterJobs;
    }
    if |p.edits| > 0 {
      assert p.edits[0].pk in s.edits;
    }
    if |s.edits| > 0 {
      var k :| k in s.edits;
      var i :| 0 <= i < |p.edits| && p.edits[i].pk == k;
    }
  }

  /** A turn of the inner loop read from the store `s`: the answer agrees
      with `process_exists` on `s`, and a `Pending` turn runs the pass the
      queries on `s` return. Such a turn runs a pass exactly when there is
      work in it. */
  lemma RoundMatchesStore(r: Round, s: Snapshot, now: Processes.Instant)
    requires AnsweredFrom(r.answer, s, now) && QueriedFrom(r.pass, s, now) && r.answer != Down
    ensures r.answer == Pending <==> (|r.pass.stale| > 0 || |r.pass.mangaJobs| > 0 || |r.pass.chapterJobs| > 0 || |r.pass.edits| > 0)
  {
    ProcessExistsIffWork(r.pass, s, now);
  }

  /** `stop_event.is_set()` at the `k`-th check: once set, it stays set. */
  predicate Stopped(stopAt: Option<nat>, k: nat) {
    stopAt.Some? && k >= stopAt.value
  }

  /** A sweep is due when no next run is scheduled or its time has come. */
  predicate Due(nextRun: Option<Processes.Instant>, now: Processes.Instant) {
    nextRun.None? || nextRun.value <= now
  }

  // ---- What each job contributes ----

  /** The library `update_updates` marks for a promotion: only a created
      job counts. */
  function PromoteTouch(x: Promotion): Option<nat> {
    if x.created == Ok(true) then Some(x.library) else None
  }

  function MangaTouch(x: MangaRun): Option<nat> {
    if x.library.Ok? && !x.raised then Some(x.library.value) else None
  }

  function ChapterTouch(x: ChapterRun): Option<nat> {
    if x.signal == Done then Some(x.library) else None
  }

  function EditTouch(x: EditRun): Option<nat> {
    if x.library.Ok? && !x.raised then Some(x.library.value) else None
  }

  /** The job a chapter run leaves to be deleted after the phase. */
  function ChapterSkip(x: ChapterRun): Option<nat> {
    if x.signal == AlreadyDownloaded || x.signal == NoPages then Some(x.pk) else None
  }

  function NoSkip<T>(x: T): Option<nat> {
    None
  }

  function PromoteEvent(x: Promotion): Event { Promote(x) }
  function MangaEvent(x: MangaRun): Event { RunManga(x) }
  function ChapterEvent(x: ChapterRun): Event { RunChapter(x) }
  function EditEvent(x: EditRun): Event { RunEdit(x) }

  /** The events of a phase, one per job in query order. */
  function Events<T>(items: seq<T>, ev: T -> Event): (r: seq<Event>)
    ensures |r| == |items|
    decreases |items|
  {
    if items == [] then [] else Events(items[..|items| - 1], ev) + [ev(items[|items| - 1])]
  }

  /** Event `i` of a phase is the event of job `i`. */
  lemma {:induction false} EventsAt<T>(items: seq<T>, ev: T -> Event)
    ensures |Events(items, ev)| == |items|
    ensures forall i :: 0 <= i < |items| ==> Events(items, ev)[i] == ev(items[i])
    decreases |items|
  {
    if items != [] {
      var init := items[..|items| - 1];
      EventsAt(init, ev);
      assert forall i :: 0 <= i < |init| ==> init[i] == items[i];
    }
  }

  /** The libraries a phase marks. */
  function Libraries<T>(items: seq<T>, touch: T -> Option<nat>): set<nat>
    decreases |items|
  {
    if items == [] then {}
    else Libraries(items[..|items| - 1], touch) + (match touch(items[|items| - 1]) case Some(l) => {l} case None => {})
  }

  /** The `skipped_chapters` list a phase builds. */
  function Collect<T>(items: seq<T>, skip: T -> Option<nat>): seq<nat>
    decreases |items|
  {
    if items == [] then []
    else Collect(items[..|items| - 1], skip) + (match skip(items[|items| - 1]) case Some(x) => [x] case None => [])
  }

  /** A phase marks exactly the libraries of the jobs that report one. */
  lemma {:induction false} LibrariesMembers<T>(items: seq<T>, touch: T -> Option<nat>, l: nat)
    ensures l in Libraries(items, touch) <==> exists i :: 0 <= i < |items| && touch(items[i]) == Some(l)
    decreases |items|
  {
    if items != [] {
      var init := items[..|items| - 1];
      LibrariesMembers(init, touch, l);
      if l in Libraries(init, touch) {
        var i :| 0 <= i < |init| && touch(init[i]) == Some(l);
        assert items[i] == init[i];
      }
      if exists i :: 0 <= i < |items| && touch(items[i]) == Some(l) {
        var i :| 0 <= i < |items| && touch(items[i]) == Some(l);
        if i < |init| {
          assert init[i] == items[i];
        }
      }
    }
  }

  /** A phase collects exactly the jobs that report a skip. */
  lemma {:induction false} CollectMembers<T>(items: seq<T>, skip: T -> Option<nat>, x: nat)
    ensures x in Collect(items, skip) <==> exists i :: 0 <= i < |items| && skip(items[i]) == Some(x)
    decreases |items|
  {
    if items != [] {
      var init := items[..|items| - 1];
      var tail: seq<nat> := match skip(items[|items| - 1]) case Some(y) => [y] case None => [];
      assert Collect(items, skip) == Collect(init, skip) + tail;
      assert x in tail <==> skip(items[|items| - 1]) == Some(x);
      CollectMembers(init, skip, x);
      if x in Collect(init, skip) {
        var i :| 0 <= i < |init| && skip(init[i]) == Some(x);
        assert items[i] == init[i];
      }
      if exists i :: 0 <= i < |items| && skip(items[i]) == Some(x) {
        var i :| 0 <= i < |items| && skip(items[i]) == Some(x);
        if i < |init| {
          assert init[i] == items[i];
        }
      }
    }
  }

  /** The stages of a pass, in order: clear the cache, promote stale
      mangas, run manga jobs, run chapter jobs, delete the skipped chapter
      jobs, run edits. */
  const STAGES: nat := 6

  /** The events of stage `k` of a complete pass. */
  function Piece(p: PassInput, k: nat): seq<Event>
    requires k < STAGES
  {
    if k == 0 then [ClearCache]
    else if k == 1 then Events(p.stale, PromoteEvent)
    else if k == 2 then Events(p.mangaJobs, MangaEvent)
    else if k == 3 then Events(p.chapterJobs, ChapterEvent)
    else if k == 4 then [DeleteSkipped(Collect(p.chapterJobs, ChapterSkip))]
    else Events(p.edits, EditEvent)
  }

  /** The libraries the first `ran` jobs of stage `k` mark. */
  function PieceLibraries(p: PassInput, k: nat, ran: nat): set<nat>
    requires k < STAGES && ran <= |Piece(p, k)|
  {
    if k == 1 then Libraries(p.stale[..ran], PromoteTouch)
    else if k == 2 then Libraries(p.mangaJobs[..ran], MangaTouch)
    else if k == 3 then Libraries(p.chapterJobs[..ran], ChapterTouch)
    else if k == 5 then Libraries(p.edits[..ran], EditTouch)
    else {}
  }

  /** The stop checks of a complete stage k: one per job, and one after
      every stage that has a check of its own. */
  function PieceChecks(p: PassInput, k: nat): nat
    requires k < STAGES
  {
    if k == 0 then 0
    else if k == 3 then |p.chapterJobs|
    else if k == 4 then 1
    else |Piece(p, k)| + 1
  }

  function UpTo(p: PassInput, k: nat): seq<Event>
    requires k <= STAGES
  {
    if k == 0 then [] else UpTo(p, k - 1) + Piece(p, k - 1)
  }

  function LibrariesUpTo(p: PassInput, k: nat): set<nat>
    requires k <= STAGES
  {
    if k == 0 then {} else LibrariesUpTo(p, k - 1) + PieceLibraries(p, k - 1, |Piece(p, k - 1)|)
  }

  function ChecksUpTo(p: PassInput, k: nat): nat
    requires k <= STAGES
  {
    if k == 0 then 0 else ChecksUpTo(p, k - 1) + PieceChecks(p, k - 1)
  }

  /** The events of a complete pass: every stage run to the end. */
  function PassEvents(p: PassInput): seq<Event> {
    UpTo(p, STAGES)
  }

  /** The libraries a complete pass marks. */
  function PassLibraries(p: PassInput): set<nat> {
    LibrariesUpTo(p, STAGES)
  }

  /** The stop checks of a complete pass. */
  function PassChecks(p: PassInput): nat {
    ChecksUpTo(p, STAGES)
  }

  /** A complete pass, phase by phase: the cache is cleared, then each
      query's jobs run in order, with the skipped chapter jobs deleted
      before the edits; the libraries are those the four phases mark; the
      stop signal is checked once per job and once after each phase but
      the chapter jobs, whose check follows the deletion. */
  lemma PassShape(p: PassInput)
    ensures PassEvents(p) == [ClearCache] + Events(p.stale, PromoteEvent) + Events(p.mangaJobs, MangaEvent)
                             + Events(p.chapterJobs, ChapterEvent) + [DeleteSkipped(Collect(p.chapterJobs, ChapterSkip))]
                             + Events(p.edits, EditEvent)
    ensures PassLibraries(p) == Libraries(p.stale, PromoteTouch) + Libraries(p.mangaJobs, MangaTouch)
                                + Libraries(p.chapterJobs, ChapterTouch) + Libraries(p.edits, EditTouch)
    ensures PassChecks(p) == |p.stale| + |p.mangaJobs| + |p.chapterJobs| + |p.edits| + 4
  {
    assert p.stale[..|p.stale|] == p.stale && p.mangaJobs[..|p.mangaJobs|] == p.mangaJobs;
    assert p.chapterJobs[..|p.chapterJobs|] == p.chapterJobs && p.edits[..|p.edits|] == p.edits;
    assert UpTo(p, 1) == [ClearCache];
    assert UpTo(p, 2) == UpTo(p, 1) + Events(p.stale, PromoteEvent);
    assert UpTo(p, 3) == UpTo(p, 2) + Events(p.mangaJobs, MangaEvent);
    assert UpTo(p, 4) == UpTo(p, 3) + Events(p.chapterJobs, ChapterEvent);
    assert UpTo(p, 5) == UpTo(p, 4) + [DeleteSkipped(Collect(p.chapterJobs, ChapterSkip))];
    assert UpTo(p, 6) == UpTo(p, 5) + Events(p.edits, EditEvent);
    assert LibrariesUpTo(p, 1) == {};
    assert LibrariesUpTo(p, 2) == LibrariesUpTo(p, 1) + Libraries(p.stale, PromoteTouch);
    assert LibrariesUpTo(p, 3) == LibrariesUpTo(p, 2) + Libraries(p.mangaJobs, MangaTouch);
    assert LibrariesUpTo(p, 4) == LibrariesUpTo(p, 3) + Libraries(p.chapterJobs, ChapterTouch);
    assert LibrariesUpTo(p, 5) == LibrariesUpTo(p, 4);
    assert LibrariesUpTo(p, 6) == LibrariesUpTo(p, 5) + Libraries(p.edits, EditTouch);
    assert ChecksUpTo(p, 1) == 0;
    assert ChecksUpTo(p, 2) == |p.stale| + 1;
    assert ChecksUpTo(p, 3) == ChecksUpTo(p, 2) + |p.mangaJobs| + 1;
    assert ChecksUpTo(p, 4) == ChecksUpTo(p, 3) + |p.chapterJobs|;
    assert ChecksUpTo(p, 5) == ChecksUpTo(p, 4) + 1;
    assert ChecksUpTo(p, 6) == ChecksUpTo(p, 5) + |p.edits| + 1;
  }

  /** The stages done so far are a prefix of any later point. */
  lemma {:induction false} UpToGrow(p: PassInput, k: nat, j: nat)
    requires k <= j <= STAGES
    ensures IsPrefix(UpTo(p, k), UpTo(p, j))
    decreases j - k
  {
    if k < j {
      UpToGrow(p, k, j - 1);
      assert UpTo(p, j) == UpTo(p, j - 1) + Piece(p, j - 1);
      assert UpTo(p, j)[..|UpTo(p, j - 1)|] == UpTo(p, j - 1);
    }
  }

  /** A pass cut short inside stage `k` has done a prefix of the whole
      pass. */
  lemma UpToPrefix(p: PassInput, k: nat, ran: nat)
    requires k < STAGES && ran <= |Piece(p, k)|
    ensures IsPrefix(UpTo(p, k) + Piece(p, k)[..ran], UpTo(p, STAGES))
  {
    UpToGrow(p, k + 1, STAGES);
    assert UpTo(p, k + 1) == UpTo(p, k) + Piece(p, k);
    assert UpTo(p, k + 1)[..|UpTo(p, k)| + ran] == UpTo(p, k) + Piece(p, k)[..ran];
  }

  /** ... and has marked no library the whole pass would not. */
  lemma {:induction false} LibrariesUpToGrow(p: PassInput, k: nat, j: nat)
    requires k <= j <= STAGES
    ensures LibrariesUpTo(p, k) <= LibrariesUpTo(p, j)
    decreases j - k
  {
    if k < j {
      LibrariesUpToGrow(p, k, j - 1);
      assert LibrariesUpTo(p, j) == LibrariesUpTo(p, j - 1) + PieceLibraries(p, j - 1, |Piece(p, j - 1)|);
    }
  }

  lemma PieceLibrariesBelow(p: PassInput, k: nat, ran: nat)
    requires k < STAGES && ran <= |Piece(p, k)|
    ensures PieceLibraries(p, k, ran) <= PieceLibraries(p, k, |Piece(p, k)|)
  {
    if k == 1 {
      LibrariesPrefix(p.stale, PromoteTouch, ran);
      assert p.stale[..|p.stale|] == p.stale;
    } else if k == 2 {
      LibrariesPrefix(p.mangaJobs, MangaTouch, ran);
      assert p.mangaJobs[..|p.mangaJobs|] == p.mangaJobs;
    } else if k == 3 {
      LibrariesPrefix(p.chapterJobs, ChapterTouch, ran);
      assert p.chapterJobs[..|p.chapterJobs|] == p.chapterJobs;
    } else if k == 5 {
      LibrariesPrefix(p.edits, EditTouch, ran);
      assert p.edits[..|p.edits|] == p.edits;
    }
  }

  /** The position of an event's phase within a pass. */
  function Rank(e: Event): nat {
    match e
    case ClearCache => 0
    case Promote(_) => 1
    case RunManga(_) => 2
    case RunChapter(_) => 3
    case DeleteSkipped(_) => 4
    case RunEdit(_) => 5
    case NotifyLibrary(_) => 6
  }

  predicate Ordered(es: seq<Event>) {
    forall i, j :: 0 <= i < j < |es| ==> Rank(es[i]) <= Rank(es[j])
  }

  predicate IsPrefix(a: seq<Event>, b: seq<Event>) {
    |a| <= |b| && a == b[..|a|]
  }

  // ---- Facts about a pass ----

  /** Every event of `es` belongs to phase `r`. */
  predicate RankedAs(es: seq<Event>, r: nat) {
    forall i :: 0 <= i < |es| ==> Rank(es[i]) == r
  }

  /** No event of `es` belongs to a phase after `r`. */
  predicate RankedUpTo(es: seq<Event>, r: nat) {
    forall i :: 0 <= i < |es| ==> Rank(es[i]) <= r
  }

  /** A phase's events all belong to that phase. */
  lemma EventsRanked<T>(items: seq<T>, ev: T -> Event, r: nat)
    requires forall x :: Rank(ev(x)) == r
    ensures RankedAs(Events(items, ev), r)
  {
    EventsAt(items, ev);
  }

  /** Appending a later phase keeps a log ordered. */
  lemma OrderedAppend(a: seq<Event>, b: seq<Event>, r: nat)
    requires Ordered(a) && RankedUpTo(a, r) && RankedAs(b, r)
    ensures Ordered(a + b) && RankedUpTo(a + b, r)
  {
  }

  /** The phases of a pass run in a fixed order: cache clearing, then
      promotions, manga jobs, chapter jobs, the deletion of skipped chapter
      jobs, and edits; nothing in it belongs to a later step. */
  lemma PassPhaseOrder(p: PassInput)
    ensures Ordered(PassEvents(p)) && RankedUpTo(PassEvents(p), 5)
  {
    PassShape(p);
    var es := JobPhases(p);
    OrderedAppend(es, [DeleteSkipped(Collect(p.chapterJobs, ChapterSkip))], 4);
    es := es + [DeleteSkipped(Collect(p.chapterJobs, ChapterSkip))];
    EventsRanked(p.edits, EditEvent, 5);
    OrderedAppend(es, Events(p.edits, EditEvent), 5);
  }

  /** The cache clearing, promotions, manga jobs and chapter jobs, in that
      order, and nothing of a later step. */
  lemma JobPhases(p: PassInput) returns (es: seq<Event>)
    ensures es == [ClearCache] + Events(p.stale, PromoteEvent) + Events(p.mangaJobs, MangaEvent) + Events(p.chapterJobs, ChapterEvent)
    ensures Ordered(es) && RankedUpTo(es, 3)
  {
    es := [ClearCache];
    EventsRanked(p.stale, PromoteEvent, 1);
    OrderedAppend(es, Events(p.stale, PromoteEvent), 1);
    es := es + Events(p.stale, PromoteEvent);
    EventsRanked(p.mangaJobs, MangaEvent, 2);
    OrderedAppend(es, Events(p.mangaJobs, MangaEvent), 2);
    es := es + Events(p.mangaJobs, MangaEvent);
    EventsRanked(p.chapterJobs, ChapterEvent, 3);
    OrderedAppend(es, Events(p.chapterJobs, ChapterEvent), 3);
    es := es + Events(p.chapterJobs, ChapterEvent);
  }

  /** Every job of a phase runs, whatever the jobs before it raised. */
  lemma EveryJobRuns(p: PassInput)
    ensures forall i :: 0 <= i < |p.stale| ==> Promote(p.stale[i]) in PassEvents(p)
    ensures forall i :: 0 <= i < |p.mangaJobs| ==> RunManga(p.mangaJobs[i]) in PassEvents(p)
    ensures forall i :: 0 <= i < |p.chapterJobs| ==> RunChapter(p.chapterJobs[i]) in PassEvents(p)
    ensures forall i :: 0 <= i < |p.edits| ==> RunEdit(p.edits[i]) in PassEvents(p)
  {
    PassShape(p);
    EventsAt(p.stale, PromoteEvent);
    EventsAt(p.mangaJobs, MangaEvent);
    EventsAt(p.chapterJobs, ChapterEvent);
    EventsAt(p.edits, EditEvent);
    forall i | 0 <= i < |p.stale| ensures Promote(p.stale[i]) in PassEvents(p) {
      assert Events(p.stale, PromoteEvent)[i] in Events(p.stale, PromoteEvent);
    }
    forall i | 0 <= i < |p.mangaJobs| ensures RunManga(p.mangaJobs[i]) in PassEvents(p) {
      assert Events(p.mangaJobs, MangaEvent)[i] in Events(p.mangaJobs, MangaEvent);
    }
    forall i | 0 <= i < |p.chapterJobs| ensures RunChapter(p.chapterJobs[i]) in PassEvents(p) {
      assert Events(p.chapterJobs, ChapterEvent)[i] in Events(p.chapterJobs, ChapterEvent);
    }
    forall i | 0 <= i < |p.edits| ensures RunEdit(p.edits[i]) in PassEvents(p) {
      assert Events(p.edits, EditEvent)[i] in Events(p.edits, EditEvent);
    }
  }

  /** The chapter jobs deleted after the chapter phase are exactly those
      that reported an already downloaded chapter or no pages. */
  lemma SkippedAreDeleted(p: PassInput, pk: nat)
    ensures pk in Collect(p.chapterJobs, ChapterSkip) <==>
              exists i :: 0 <= i < |p.chapterJobs| && p.chapterJobs[i].pk == pk
                          && (p.chapterJobs[i].signal == AlreadyDownloaded || p.chapterJobs[i].signal == NoPages)
  {
    CollectMembers(p.chapterJobs, ChapterSkip, pk);
    if pk in Collect(p.chapterJobs, ChapterSkip) {
      var i :| 0 <= i < |p.chapterJobs| && ChapterSkip(p.chapterJobs[i]) == Some(pk);
      assert p.chapterJobs[i].pk == pk;
    }
  }

  /** A pass never notifies: notifications wait for the end of the sweep. */
  lemma PassHasNoNotify(p: PassInput)
    ensures forall e :: e in PassEvents(p) ==> !e.NotifyLibrary?
  {
    PassPhaseOrder(p);
    forall e | e in PassEvents(p) ensures !e.NotifyLibrary? {
      var i :| 0 <= i < |PassEvents(p)| && PassEvents(p)[i] == e;
      assert Rank(PassEvents(p)[i]) <= 5;
    }
  }

  /** A promotion marks its library exactly when it created a job. */
  lemma PromotionMarksOnlyCreated(ps: seq<Promotion>, l: nat)
    ensures l in Libraries(ps, PromoteTouch) <==> exists i :: 0 <= i < |ps| && ps[i].library == l && ps[i].created == Ok(true)
  {
    LibrariesMembers(ps, PromoteTouch, l);
    if l in Libraries(ps, PromoteTouch) {
      var i :| 0 <= i < |ps| && PromoteTouch(ps[i]) == Some(l);
      assert ps[i].library == l && ps[i].created == Ok(true);
    }
  }

  /** A manga job marks its library exactly when its run returned and its
      library could be read. */
  lemma MangaRunMarksOnlyReturned(ms: seq<MangaRun>, l: nat)
    ensures l in Libraries(ms, MangaTouch) <==> exists i :: 0 <= i < |ms| && ms[i].library == Ok(l) && !ms[i].raised
  {
    LibrariesMembers(ms, MangaTouch, l);
    if l in Libraries(ms, MangaTouch) {
      var i :| 0 <= i < |ms| && MangaTouch(ms[i]) == Some(l);
      assert ms[i].library == Ok(l) && !ms[i].raised;
    }
  }

  /** The promotion and manga phases as written. `MonitorManga` has no
      `library` or `manga` field, so `get_or_create(library=..., manga=...)`
      raises FieldError for every stale manga and `manga_monitor.library`
      raises AttributeError after every manga run: only chapter jobs and
      edits mark libraries. */
  lemma AsWrittenMangaPhasesMarkNothing(p: PassInput)
    requires forall i :: 0 <= i < |p.stale| ==> p.stale[i].created == Err(FieldError)
    requires forall i :: 0 <= i < |p.mangaJobs| ==> p.mangaJobs[i].library == Err(AttributeError)
    ensures PassLibraries(p) == Libraries(p.chapterJobs, ChapterTouch) + Libraries(p.edits, EditTouch)
  {
    PassShape(p);
    forall l: nat
      ensures l !in Libraries(p.stale, PromoteTouch) && l !in Libraries(p.mangaJobs, MangaTouch)
    {
      PromotionMarksOnlyCreated(p.stale, l);
      MangaRunMarksOnlyReturned(p.mangaJobs, l);
    }
  }

  // ---- Outcomes ----

  /** No check from `c0` up to `c` saw the stop signal. */
  predicate NoStop(stopAt: Option<nat>, c0: nat, c: nat) {
    forall k :: c0 <= k < c ==> !Stopped(stopAt, k)
  }

  /** The last check after `c0` saw the stop signal. */
  predicate StopsAt(stopAt: Option<nat>, c0: nat, c: nat) {
    c > c0 && Stopped(stopAt, c - 1)
  }

  /** `log` extends `log0` with a prefix of `whole`. */
  predicate CutShort(log0: seq<Event>, log: seq<Event>, whole: seq<Event>) {
    |log0| <= |log| && log[..|log0|] == log0 && IsPrefix(log[|log0|..], whole)
  }

  /** What a pass leaves behind: all of it, or, when the stop signal was
      seen, a prefix of its events and some of its libraries. */
  predicate PassOutcome(p: PassInput, stopAt: Option<nat>, stop: bool,
                        log0: seq<Event>, log: seq<Event>, u0: set<nat>, u: set<nat>, c0: nat, c: nat)
  {
    if stop then StopsAt(stopAt, c0, c) && CutShort(log0, log, PassEvents(p)) && u0 <= u <= u0 + PassLibraries(p)
    else log == log0 + PassEvents(p) && u == u0 + PassLibraries(p) && c == c0 + PassChecks(p) && NoStop(stopAt, c0, c)
  }

  // ---- A sweep: passes until nothing is due ----

  /** The rounds describe a whole sweep: the last answer is not "work is
      due". */
  predicate SweepInput(rounds: seq<Round>) {
    |rounds| > 0 && rounds[|rounds| - 1].answer != Pending
  }

  /** The events of complete passes, one after the other. */
  function PassesEvents(rs: seq<Round>): seq<Event>
    decreases |rs|
  {
    if rs == [] then [] else PassesEvents(rs[..|rs| - 1]) + PassEvents(rs[|rs| - 1].pass)
  }

  /** The libraries complete passes mark. */
  function SweepLibraries(rs: seq<Round>): set<nat>
    decreases |rs|
  {
    if rs == [] then {} else SweepLibraries(rs[..|rs| - 1]) + PassLibraries(rs[|rs| - 1].pass)
  }

  lemma PassesStep(rs: seq<Round>, n: nat)
    requires n < |rs|
    ensures PassesEvents(rs[..n + 1]) == PassesEvents(rs[..n]) + PassEvents(rs[n].pass)
    ensures SweepLibraries(rs[..n + 1]) == SweepLibraries(rs[..n]) + PassLibraries(rs[n].pass)
  {
    assert rs[..n + 1][..n] == rs[..n];
  }

  /** Passes never notify: notifications wait until no work is due. */
  lemma {:induction false} PassesHaveNoNotify(rs: seq<Round>)
    ensures forall e :: e in PassesEvents(rs) ==> !e.NotifyLibrary?
    decreases |rs|
  {
    if rs != [] {
      PassesHaveNoNotify(rs[..|rs| - 1]);
      PassHasNoNotify(rs[|rs| - 1].pass);
    }
  }

  /** The notifications sent for `libraries`, in order. */
  function Notifications(libraries: seq<nat>): (r: seq<Event>)
    ensures |r| == |libraries|
  {
    seq(|libraries|, i requires 0 <= i < |libraries| => NotifyLibrary(libraries[i]))
  }

  predicate Distinct(xs: seq<nat>) {
    forall i, j :: 0 <= i < j < |xs| ==> xs[i] != xs[j]
  }

  /** A sweep that reaches the notifications notifies each library it
      marked exactly once. */
  lemma NotifiedOnce(notified: seq<nat>, updates: set<nat>, l: nat)
    requires Distinct(notified) && forall x :: x in notified <==> x in updates
    ensures multiset(notified)[l] == if l in updates then 1 else 0
  {
    if notified != [] {
      var rest := notified[1..];
      assert notified == [notified[0]] + rest;
      assert Distinct(rest);
      NotifiedOnce(rest, updates - {notified[0]}, l);
    }
  }

  // ---- The loop ----

  class Monitor {
    /** The module-level `next_run`. */
    var nextRun: Option<Processes.Instant>
    /** The `updates` set of the current sweep. */
    var updates: set<nat>
    /** What the loop has done so far. */
    var log: seq<Event>
    /** How many times the stop signal has been checked. */
    var checks: nat

    constructor ()
      ensures nextRun.None? && updates == {} && log == [] && checks == 0
    {
      nextRun := None;
      updates := {};
      log := [];
      checks := 0;
    }

    /** `trigger_monitor`: forget the scheduled time. */
    method Trigger()
      modifies this
      ensures nextRun.None? && forall now :: Due(nextRun, now)
      ensures updates == old(updates) && log == old(log) && checks == old(checks)
    {
      nextRun := None;
    }

    /** `update_updates`: mark the library when the job changed something;
        a set holds each library once. */
    method Touch(library: nat, modified: bool)
      modifies this
      ensures updates == if modified then old(updates) + {library} else old(updates)
      ensures library in updates <==> library in old(updates) || modified
      ensures log == old(log) && checks == old(checks) && nextRun == old(nextRun)
    {
      if library !in updates && modified {
        updates := updates + {library};
      }
    }

    /** One `stop_event.is_set()`. */
    method CheckStop(stopAt: Option<nat>) returns (stop: bool)
      modifies this
      ensures checks == old(checks) + 1 && stop == Stopped(stopAt, old(checks))
      ensures updates == old(updates) && log == old(log) && nextRun == old(nextRun)
    {
      stop := Stopped(stopAt, checks);
      checks := checks + 1;
    }

    /** One phase of a pass: before each job the stop signal is checked;
        each job runs, whatever the earlier ones raised, and marks its
        library when it changed something. Returns how many jobs ran: all
        of them, or those before the check that saw the stop. */
    method Phase<T>(items: seq<T>, ev: T -> Event, touch: T -> Option<nat>, skip: T -> Option<nat>, stopAt: Option<nat>)
      returns (stop: bool, ran: nat, skipped: seq<nat>)
      modifies this
      ensures nextRun == old(nextRun)
      ensures ran <= |items| && (!stop ==> ran == |items|)
      ensures checks == old(checks) + ran + (if stop then 1 else 0)
      ensures forall k :: old(checks) <= k < old(checks) + ran ==> !Stopped(stopAt, k)
      ensures stop ==> Stopped(stopAt, checks - 1)
      ensures log == old(log) + Events(items[..ran], ev)
      ensures updates == old(updates) + Libraries(items[..ran], touch)
      ensures skipped == Collect(items[..ran], skip)
    {
      ran := 0;
      skipped := [];
      stop := false;
      while ran < |items|
        invariant 0 <= ran <= |items| && checks == old(checks) + ran && nextRun == old(nextRun)
        invariant log == old(log) + Events(items[..ran], ev)
        invariant updates == old(updates) + Libraries(items[..ran], touch)
        invariant skipped == Collect(items[..ran], skip)
        invariant forall k :: old(checks) <= k < checks ==> !Stopped(stopAt, k)
      {
        stop := CheckStop(stopAt);
        if stop {
          return;
        }
        PhaseStep(items, ran, ev, touch, skip);
        log := log + [ev(items[ran])];
        Touch(if touch(items[ran]).Some? then touch(items[ran]).value else 0, touch(items[ran]).Some?);
        if skip(items[ran]).Some? {
          skipped := skipped + [skip(items[ran]).value];
        }
        ran := ran + 1;
      }
    }

    /** Stage `k` of a pass, with the stop check that follows it in the
        loop body. Returns how many of the stage's events happened. */
    method Stage(p: PassInput, k: nat, stopAt: Option<nat>) returns (stop: bool, ran: nat)
      requires k < STAGES
      modifies this
      ensures nextRun == old(nextRun)
      ensures ran <= |Piece(p, k)| && log == old(log) + Piece(p, k)[..ran]
      ensures updates == old(updates) + PieceLibraries(p, k, ran)
      ensures !stop ==> ran == |Piece(p, k)| && checks == old(checks) + PieceChecks(p, k)
      ensures !stop ==> forall c :: old(checks) <= c < checks ==> !Stopped(stopAt, c)
      ensures stop ==> checks > old(checks) && Stopped(stopAt, checks - 1)
    {
      var skipped: seq<nat>;
      ghost var c0 := checks;
      stop := false;
      if k == 0 {
        log := log + [ClearCache];
        ran := 1;
      } else if k == 1 {
        stop, ran, skipped := Phase(p.stale, PromoteEvent, PromoteTouch, NoSkip, stopAt);
        EventsPrefix(p.stale, PromoteEvent, ran);
      } else if k == 2 {
        stop, ran, skipped := Phase(p.mangaJobs, MangaEvent, MangaTouch, NoSkip, stopAt);
        EventsPrefix(p.mangaJobs, MangaEvent, ran);
      } else if k == 3 {
        stop, ran, skipped := Phase(p.chapterJobs, ChapterEvent, ChapterTouch, ChapterSkip, stopAt);
        EventsPrefix(p.chapterJobs, ChapterEvent, ran);
      } else if k == 4 {
        log := log + [DeleteSkipped(Collect(p.chapterJobs, ChapterSkip))];
        ran := 1;
      } else {
        stop, ran, skipped := Phase(p.edits, EditEvent, EditTouch, NoSkip, stopAt);
        EventsPrefix(p.edits, EditEvent, ran);
      }
      if !stop && k != 0 && k != 3 {
        stop := CheckStop(stopAt);
      }
    }

    /** Stage `k` of a pass begun when the log, the marked libraries and
        the check count were `log0`, `u0` and `c0`: either the pass has
        now done its first `k + 1` stages, or it stopped part way with a
        prefix of the pass done. */
    method Advance(p: PassInput, k: nat, stopAt: Option<nat>, ghost log0: seq<Event>, ghost u0: set<nat>, ghost c0: nat)
      returns (stop: bool)
      requires k < STAGES
      requires log == log0 + UpTo(p, k) && updates == u0 + LibrariesUpTo(p, k) && checks == c0 + ChecksUpTo(p, k)
      modifies this
      ensures nextRun == old(nextRun)
      ensures !stop ==> log == log0 + UpTo(p, k + 1) && updates == u0 + LibrariesUpTo(p, k + 1)
                        && checks == c0 + ChecksUpTo(p, k + 1) && NoStop(stopAt, old(checks), checks)
      ensures stop ==> StopsAt(stopAt, old(checks), checks) && CutShort(log0, log, PassEvents(p))
                       && u0 <= updates <= u0 + PassLibraries(p)
    {
      var ran;
      ghost var log1, updates1, checks1 := log, updates, checks;
      stop, ran := Stage(p, k, stopAt);
      if stop {
        Regroup(log0, UpTo(p, k), Piece(p, k)[..ran]);
        StoppedInStage(p, k, ran, log0, log, u0, updates);
      } else {
        StageCompleted(p, k, log0, log1, log, u0, updates1, updates, c0, checks1, checks);
      }
    }

    /** One pass of the inner loop: the stages in order. A stop returns at
        once, having done a prefix of the pass. */
    method RunPass(p: PassInput, stopAt: Option<nat>) returns (stop: bool)
      modifies this
      ensures nextRun == old(nextRun)
      ensures PassOutcome(p, stopAt, stop, old(log), log, old(updates), updates, old(checks), checks)
    {
      var k := 0;
      while k < STAGES
        invariant 0 <= k <= STAGES && nextRun == old(nextRun)
        invariant log == old(log) + UpTo(p, k)
        invariant updates == old(updates) + LibrariesUpTo(p, k)
        invariant checks == old(checks) + ChecksUpTo(p, k)
        invariant NoStop(stopAt, old(checks), checks)
      {
        stop := Advance(p, k, stopAt, old(log), old(updates), old(checks));
        if stop {
          return;
        }
        k := k + 1;
      }
      stop := false;
    }

    /** One turn of the inner loop after `process_exists` said work is
        due, with `ran` passes done since the sweep began at `log0` and
        `u0`: the stop check, then a pass. */
    method Turn(rounds: seq<Round>, ran: nat, stopAt: Option<nat>, ghost log0: seq<Event>, ghost u0: set<nat>)
      returns (exit: Option<Exit>)
      requires ran < |rounds|
      requires SweptSoFar(rounds, ran, log0, log, u0, updates)
      modifies this
      ensures nextRun == old(nextRun)
      ensures TurnOutcome(rounds, ran, stopAt, exit, log0, u0, old(log), old(updates), old(checks), log, updates, checks)
    {
      var stop := CheckStop(stopAt);
      if stop {
        return Some(StopSeen);
      }
      ghost var log1, updates1 := log, updates;
      stop := RunPass(rounds[ran].pass, stopAt);
      if stop {
        InterruptedShape(rounds, ran, log0, log1, log, u0, updates1, updates);
        return Some(Interrupted);
      }
      PassDone(rounds, ran, log0, log1, log, u0, updates1, updates);
      NoStopJoin(stopAt, old(checks), old(checks) + 1, checks);
      exit := None;
    }

    /** The inner `while process_exists() and not stop_event.is_set()`
        loop: `process_exists` is asked first, then the stop signal, then a
        pass runs. */
    method Passes(rounds: seq<Round>, stopAt: Option<nat>) returns (exit: Exit, ran: nat)
      requires SweepInput(rounds)
      modifies this
      ensures nextRun == old(nextRun)
      ensures ran < |rounds| && AllPending(rounds, ran)
      ensures PassesOutcome(rounds, stopAt, exit, ran, old(log), log, old(updates), updates, old(checks), checks)
    {
      ran := 0;
      while rounds[ran].answer == Pending
        invariant ran < |rounds| && AllPending(rounds, ran)
        invariant nextRun == old(nextRun) && checks >= old(checks)
        invariant SweptSoFar(rounds, ran, old(log), log, old(updates), updates)
        invariant NoStop(stopAt, old(checks), checks)
        decreases |rounds| - ran
      {
        ghost var pending := ran;
        var turn := Turn(rounds, ran, stopAt, old(log), old(updates));
        if turn.Some? {
          return turn.value, ran;
        }
        assert pending != |rounds| - 1;
        PendingStep(rounds, pending);
        ran := ran + 1;
      }
      exit := if rounds[ran].answer == Clear then Drained else Unreachable;
    }

    /** `for lib in updates: notify_connectors(lib)`: each marked library,
        in some order, once. */
    method NotifyAll() returns (notified: seq<nat>)
      modifies this
      ensures log == old(log) + Notifications(notified)
      ensures Distinct(notified) && forall l :: l in notified <==> l in updates
      ensures updates == old(updates) && checks == old(checks) && nextRun == old(nextRun)
    {
      var left := updates;
      notified := [];
      while left != {}
        invariant left <= updates && forall l :: l in updates <==> l in left || l in notified
        invariant forall l :: l in notified ==> l !in left
        invariant Distinct(notified)
        invariant log == old(log) + Notifications(notified)
        invariant updates == old(updates) && checks == old(checks) && nextRun == old(nextRun)
        decreases |left|
      {
        var l :| l in left;
        log := log + [NotifyLibrary(l)];
        notified := notified + [l];
        left := left - {l};
      }
    }

    /** One sweep: the inner loop from an empty `updates`, then the
        notifications, then the last stop check; an unreachable store skips
        the notifications. Unless `monitoring` returned, the next sweep is
        due an hour after this one ended. */
    method Sweep(rounds: seq<Round>, finishedAt: Processes.Instant, stopAt: Option<nat>)
      returns (end: SweepEnd, ran: nat, notified: seq<nat>)
      requires SweepInput(rounds)
      modifies this
      ensures ran < |rounds| && AllPending(rounds, ran) && checks >= old(checks)
      ensures SweepOutcome(rounds, stopAt, finishedAt, end, ran, notified, old(log), log, updates, old(checks), checks, old(nextRun), nextRun)
    {
      updates := {};
      var exit;
      exit, ran := Passes(rounds, stopAt);
      notified := [];
      if exit == Interrupted {
        return Returned(false), ran, notified;
      }
      if exit == Unreachable {
        nextRun := Some(finishedAt + Processes.HOUR);
        return StoreDown, ran, notified;
      }
      notified := NotifyAll();
      var stop := CheckStop(stopAt);
      if stop {
        return Returned(true), ran, notified;
      }
      nextRun := Some(finishedAt + Processes.HOUR);
      end := Completed;
    }

    /** One turn of the outer `while not stop_event.is_set()` loop: a sweep
        when it is due, then the ten-second sleep. Returns whether the loop
        goes on. */
    method Tick(t: TickInput, stopAt: Option<nat>) returns (running: bool, swept: Option<SweepEnd>)
      requires SweepInput(t.rounds)
      modifies this
      ensures checks > old(checks)
      ensures !running ==> Stopped(stopAt, checks - 1)
      ensures swept.Some? <==> !Stopped(stopAt, old(checks)) && Due(old(nextRun), t.now)
      ensures swept.None? ==> nextRun == old(nextRun) && log == old(log)
      ensures running <==> !Stopped(stopAt, old(checks)) && !(swept.Some? && swept.value.Returned?)
      ensures swept.Some? && !swept.value.Returned? ==> nextRun == Some(t.finishedAt + Processes.HOUR)
    {
      var stop := CheckStop(stopAt);
      if stop {
        return false, None;
      }
      if Due(nextRun, t.now) {
        var end, ran, notified := Sweep(t.rounds, t.finishedAt, stopAt);
        swept := Some(end);
        running := !end.Returned?;
      } else {
        swept := None;
        running := true;
      }
    }

    /** `monitoring`: turns of the outer loop until one sees the stop
        signal. Returns how many turns went on to the next. */
    method Monitoring(ticks: seq<TickInput>, stopAt: Option<nat>) returns (turns: nat)
      requires forall i :: 0 <= i < |ticks| ==> SweepInput(ticks[i].rounds)
      modifies this
      ensures turns <= |ticks|
      ensures turns < |ticks| ==> checks > old(checks) && Stopped(stopAt, checks - 1)
    {
      turns := 0;
      while turns < |ticks|
        invariant turns <= |ticks| && checks >= old(checks)
      {
        var running, swept := Tick(ticks[turns], stopAt);
        if !running {
          return;
        }
        turns := turns + 1;
      }
    }
  }

  lemma PendingStep(rounds: seq<Round>, n: nat)
    requires n < |rounds| && rounds[n].answer == Pending
    requires forall j :: 0 <= j < n ==> rounds[j].answer == Pending
    ensures forall j :: 0 <= j < n + 1 ==> rounds[j].answer == Pending
  {
  }

  /** No round before `n` found the store idle or unreachable. */
  predicate AllPending(rounds: seq<Round>, n: nat)
    requires n <= |rounds|
  {
    forall j :: 0 <= j < n ==> rounds[j].answer == Pending
  }

  /** The first `n` passes of the sweep are done, and nothing else. */
  predicate SweptSoFar(rounds: seq<Round>, n: nat, log0: seq<Event>, log: seq<Event>, u0: set<nat>, u: set<nat>)
    requires n <= |rounds|
  {
    log == log0 + PassesEvents(rounds[..n]) && u == u0 + SweepLibraries(rounds[..n])
  }

  /** How the inner loop ended after `ran` complete passes: `process_exists`
      said nothing is due or could not reach the store, with no stop seen;
      or the stop signal was seen at the loop head or during a pass. */
  predicate PassesOutcome(rounds: seq<Round>, stopAt: Option<nat>, exit: Exit, ran: nat,
                          log0: seq<Event>, log: seq<Event>, u0: set<nat>, u: set<nat>, c0: nat, c: nat)
    requires ran < |rounds|
  {
    match exit
    case Drained => rounds[ran].answer == Clear && SweptSoFar(rounds, ran, log0, log, u0, u) && c >= c0 && NoStop(stopAt, c0, c)
    case Unreachable => rounds[ran].answer == Down && SweptSoFar(rounds, ran, log0, log, u0, u) && c >= c0 && NoStop(stopAt, c0, c)
    case StopSeen => rounds[ran].answer == Pending && SweptSoFar(rounds, ran, log0, log, u0, u) && StopsAt(stopAt, c0, c)
    case Interrupted => rounds[ran].answer == Pending && InterruptedIn(rounds, ran, log0, log, u0, u) && StopsAt(stopAt, c0, c)
  }

  /** The notifications went out after `ran` passes: one per marked
      library, each once. */
  predicate NotifiedAll(rounds: seq<Round>, ran: nat, notified: seq<nat>, log0: seq<Event>, log: seq<Event>, u: set<nat>)
    requires ran <= |rounds|
  {
    log == log0 + PassesEvents(rounds[..ran]) + Notifications(notified)
    && u == SweepLibraries(rounds[..ran])
    && Distinct(notified) && (forall l :: l in notified ==> l in u) && (forall l :: l in u ==> l in notified)
  }

  /** How a sweep ended. It completes only when the store said nothing is
      due and no check saw the stop signal, and then every marked library
      has been notified once; `monitoring` returns, leaving `next_run`
      alone, only when a check saw the stop signal, with the notifications
      sent when the stop was seen at the head of the inner loop and not
      when it cut a pass short; an unreachable store sends nothing. Unless
      `monitoring` returned, the next sweep is due an hour after this one
      ended. */
  predicate SweepOutcome(rounds: seq<Round>, stopAt: Option<nat>, finishedAt: Processes.Instant, end: SweepEnd,
                         ran: nat, notified: seq<nat>, log0: seq<Event>, log: seq<Event>, u: set<nat>,
                         c0: nat, c: nat, next0: Option<Processes.Instant>, next: Option<Processes.Instant>)
    requires ran < |rounds|
  {
    match end
    case Completed =>
      rounds[ran].answer == Clear && c >= c0 && NoStop(stopAt, c0, c) && NotifiedAll(rounds, ran, notified, log0, log, u)
      && next == Some(finishedAt + Processes.HOUR)
    case StoreDown =>
      rounds[ran].answer == Down && notified == [] && log == log0 + PassesEvents(rounds[..ran])
      && next == Some(finishedAt + Processes.HOUR)
    case Returned(true) => StopsAt(stopAt, c0, c) && NotifiedAll(rounds, ran, notified, log0, log, u) && next == next0
    case Returned(false) =>
      StopsAt(stopAt, c0, c) && notified == [] && InterruptedIn(rounds, ran, log0, log, {}, u) && next == next0
  }

  /** What a turn of the inner loop leaves behind: one more pass done, or
      the stop signal seen before the pass with nothing done, or seen
      during it with the pass cut short. */
  predicate TurnOutcome(rounds: seq<Round>, ran: nat, stopAt: Option<nat>, exit: Option<Exit>,
                        log0: seq<Event>, u0: set<nat>, log1: seq<Event>, u1: set<nat>, c1: nat,
                        log: seq<Event>, u: set<nat>, c: nat)
    requires ran < |rounds|
  {
    match exit
    case None => SweptSoFar(rounds, ran + 1, log0, log, u0, u) && c >= c1 && NoStop(stopAt, c1, c)
    case Some(StopSeen) => log == log1 && u == u1 && StopsAt(stopAt, c1, c)
    case Some(Interrupted) => InterruptedIn(rounds, ran, log0, log, u0, u) && StopsAt(stopAt, c1, c)
    case Some(_) => false
  }

  /** A pass cut short after `ran` complete passes: the log holds those
      passes and then a prefix of the next, and the marked libraries are
      some of those the passes would mark. */
  predicate InterruptedIn(rounds: seq<Round>, ran: nat, log0: seq<Event>, log: seq<Event>, u0: set<nat>, u: set<nat>)
    requires ran < |rounds|
  {
    var base := log0 + PassesEvents(rounds[..ran]);
    |base| <= |log| && log[..|base|] == base && IsPrefix(log[|base|..], PassEvents(rounds[ran].pass))
    && u0 <= u <= u0 + SweepLibraries(rounds[..ran + 1])
  }

  /** A completed pass extends the sweep's totals by one pass. */
  lemma PassDone(rounds: seq<Round>, ran: nat, log0: seq<Event>, log1: seq<Event>, log: seq<Event>,
                 u0: set<nat>, u1: set<nat>, u: set<nat>)
    requires ran < |rounds|
    requires SweptSoFar(rounds, ran, log0, log1, u0, u1)
    requires log == log1 + PassEvents(rounds[ran].pass) && u == u1 + PassLibraries(rounds[ran].pass)
    ensures SweptSoFar(rounds, ran + 1, log0, log, u0, u)
  {
    PassesStep(rounds, ran);
  }

  /** Two adjacent stretches of checks without the stop signal make one. */
  lemma NoStopJoin(stopAt: Option<nat>, c0: nat, c1: nat, c: nat)
    requires c0 <= c1 <= c && NoStop(stopAt, c0, c1) && NoStop(stopAt, c1, c)
    ensures NoStop(stopAt, c0, c)
  {
  }

  lemma InterruptedShape(rounds: seq<Round>, ran: nat, log0: seq<Event>, log1: seq<Event>, log: seq<Event>,
                         u0: set<nat>, u1: set<nat>, u: set<nat>)
    requires ran < |rounds|
    requires log1 == log0 + PassesEvents(rounds[..ran]) && u1 == u0 + SweepLibraries(rounds[..ran])
    requires CutShort(log1, log, PassEvents(rounds[ran].pass))
    requires u1 <= u <= u1 + PassLibraries(rounds[ran].pass)
    ensures InterruptedIn(rounds, ran, log0, log, u0, u)
  {
    PassesStep(rounds, ran);
  }

  /** Completing stage `k` extends the log and the marked libraries by the
      whole stage. */
  lemma StageCompleted(p: PassInput, k: nat, log0: seq<Event>, log1: seq<Event>, log: seq<Event>, u0: set<nat>, u1: set<nat>, u: set<nat>, c0: nat, c1: nat, c: nat)
    requires k < STAGES
    requires log1 == log0 + UpTo(p, k) && log == log1 + Piece(p, k)[..|Piece(p, k)|]
    requires u1 == u0 + LibrariesUpTo(p, k) && u == u1 + PieceLibraries(p, k, |Piece(p, k)|)
    requires c1 == c0 + ChecksUpTo(p, k) && c == c1 + PieceChecks(p, k)
    ensures log == log0 + UpTo(p, k + 1) && u == u0 + LibrariesUpTo(p, k + 1) && c == c0 + ChecksUpTo(p, k + 1)
  {
    assert Piece(p, k)[..|Piece(p, k)|] == Piece(p, k);
  }

  /** A pass stopped inside stage `k` has logged a prefix of the pass and
      marked some of the libraries the whole pass would. */
  lemma StoppedInStage(p: PassInput, k: nat, ran: nat, log0: seq<Event>, log: seq<Event>, u0: set<nat>, u: set<nat>)
    requires k < STAGES && ran <= |Piece(p, k)|
    requires log == log0 + (UpTo(p, k) + Piece(p, k)[..ran])
    requires u == u0 + LibrariesUpTo(p, k) + PieceLibraries(p, k, ran)
    ensures CutShort(log0, log, PassEvents(p))
    ensures u0 <= u <= u0 + PassLibraries(p)
  {
    UpToPrefix(p, k, ran);
    Extends(log0, UpTo(p, k) + Piece(p, k)[..ran], PassEvents(p));
    StoppedLibraries(p, k, ran);
  }

  lemma Regroup(a: seq<Event>, b: seq<Event>, c: seq<Event>)
    ensures a + b + c == a + (b + c)
  {
  }

  lemma Extends(log0: seq<Event>, done: seq<Event>, whole: seq<Event>)
    requires IsPrefix(done, whole)
    ensures CutShort(log0, log0 + done, whole)
  {
    assert (log0 + done)[|log0|..] == done;
  }

  lemma StoppedLibraries(p: PassInput, k: nat, ran: nat)
    requires k < STAGES && ran <= |Piece(p, k)|
    ensures LibrariesUpTo(p, k) + PieceLibraries(p, k, ran) <= PassLibraries(p)
  {
    PieceLibrariesBelow(p, k, ran);
    LibrariesUpToGrow(p, k + 1, STAGES);
  }

  /** One more job of a phase: its event, its library and its skipped job
      are added at the end. */
  lemma PhaseStep<T>(items: seq<T>, n: nat, ev: T -> Event, touch: T -> Option<nat>, skip: T -> Option<nat>)
    requires n < |items|
    ensures Events(items[..n + 1], ev) == Events(items[..n], ev) + [ev(items[n])]
    ensures |Events(items[..n], ev)| == n
    ensures Libraries(items[..n + 1], touch) == Libraries(items[..n], touch) + (if touch(items[n]).Some? then {touch(items[n]).value} else {})
    ensures Collect(items[..n + 1], skip) == Collect(items[..n], skip) + (if skip(items[n]).Some? then [skip(items[n]).value] else [])
  {
    assert items[..n + 1][..n] == items[..n];
    EventsAt(items[..n], ev);
  }

  /** The events of the first `n` jobs are the first `n` events. */
  lemma EventsPrefix<T>(items: seq<T>, ev: T -> Event, n: nat)
    requires n <= |items|
    ensures Events(items[..n], ev) == Events(items, ev)[..n]
  {
    EventsAt(items[..n], ev);
    EventsAt(items, ev);
  }

  /** A phase cut short marks no library the whole phase would not. */
  lemma LibrariesPrefix<T>(items: seq<T>, touch: T -> Option<nat>, n: nat)
    requires n <= |items|
    ensures Libraries(items[..n], touch) <= Libraries(items, touch)
  {
    forall l | l in Libraries(items[..n], touch) ensures l in Libraries(items, touch) {
      LibrariesMembers(items[..n], touch, l);
      LibrariesMembers(items, touch, l);
      var i :| 0 <= i < n && touch(items[..n][i]) == Some(l);
      assert items[i] == items[..n][i];
    }
  }
}
