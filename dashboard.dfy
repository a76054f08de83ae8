/** The terminal dashboard's logic: the Running / ShuttingDown / Done state
    machine driven by key events and the close signal, the fold of crawler
    reports into the table of active crawlers, the spinner animation and
    the frequency view shown as a histogram. */
module Dashboard {
  import opened Common

  /** A crawler's WebDriver port, which identifies it in reports. */
  type Port = nat

  /** Index into the eight spinner frames (a Rust `u8`). */
  type SpinnerState = bv8

  datatype CrawlerState = Initializing | InProgress(url: Url) | ShuttingDown | Complete | Terminated

  datatype CrawlerReport = CrawlerReport(port: Port, state: CrawlerState)

  datatype Color = Yellow | LightGreen | LightRed | DarkGray

  /** `CrawlerState::should_spinner_spin`: every state but the two final ones. */
  predicate ShouldSpinnerSpin(s: CrawlerState)
    ensures ShouldSpinnerSpin(s) <==> !(s.Complete? || s.Terminated?)
  {
    s.Initializing? || s.InProgress? || s.ShuttingDown?
  }

  /** `CrawlerState::spinner_color`. */
  function SpinnerColor(s: CrawlerState): (c: Color)
    ensures c == DarkGray <==> !ShouldSpinnerSpin(s)
  {
    match s
    case Initializing => Yellow
    case InProgress(_) => LightGreen
    case ShuttingDown => LightRed
    case _ => DarkGray
  }

  /** One frame of the spinner in `App::ui`: advance modulo eight while the
      crawler is busy, reset to the first frame otherwise. */
  function NextSpinner(spinner: SpinnerState, s: CrawlerState): (r: SpinnerState)
    ensures r < 8
    ensures ShouldSpinnerSpin(s) && spinner < 8 ==> r as int == (spinner as int + 1) % 8
    ensures !ShouldSpinnerSpin(s) ==> r == 0
  {
    if ShouldSpinnerSpin(s) then (spinner + 1) & 7 else 0
  }

  // ---------------------------------------------------------------------
  // Key events and the close signal

  datatype AppState = Running | ShuttingDown | Done

  datatype Modifier = Shift | Control | Alt | Super | Hyper | Meta

  datatype KeyCode = Char(c: char) | Enter | OtherKey

  datatype KeyEvent = KeyEvent(code: KeyCode, modifiers: set<Modifier>)

  /** A terminal event: a key press, or anything else (mouse, resize, focus, paste). */
  datatype Event = Key(key: KeyEvent) | OtherEvent

  /** Ctrl-C: the character `c` with exactly the control modifier. */
  predicate IsCtrlC(e: Event)
  {
    e.Key? && e.key.code == Char('c') && e.key.modifiers == {Modifier.Control}
  }

  /** Enter, whatever the modifiers. */
  predicate IsEnter(e: Event)
  {
    e.Key? && e.key.code == Enter
  }

  /** What handling one event does: the new state, whether one shutdown
      signal is sent, and whether the UI loop ends. */
  datatype EventStep = EventStep(state: AppState, sendShutdown: bool, quit: bool)

  /** `App::on_event`. */
  function EventTransition(s: AppState, e: Event): (r: EventStep)
    ensures IsCtrlC(e) ==> r == EventStep(AppState.ShuttingDown, true, false)
    ensures !IsCtrlC(e) ==> r.state == s && !r.sendShutdown
    ensures r.quit <==> s == Done && IsEnter(e)
  {
    if IsCtrlC(e) then EventStep(AppState.ShuttingDown, true, false)
    else if IsEnter(e) && s == Done then EventStep(s, false, true)
    else EventStep(s, false, false)
  }

  datatype CloseStep = CloseStep(state: AppState, exit: bool)

  /** The close branch of `Tui::run`. The branch is guarded by
      `state != Done`, so it is never taken in `Done`. */
  function CloseTransition(s: AppState): (r: CloseStep)
    requires s != Done
    ensures s == Running ==> r == CloseStep(Done, false)
    ensures s == AppState.ShuttingDown ==> r == CloseStep(s, true)
  {
    match s
    case Running => CloseStep(Done, false)
    case ShuttingDown => CloseStep(s, true)
  }

  // ---------------------------------------------------------------------
  // Crawler reports

  type CrawlerTable = map<Port, (SpinnerState, CrawlerState)>

  /** The report that decides a port's entry: one that names the port with a
      state other than `Complete`. */
  predicate Touches(report: CrawlerReport, port: Port)
  {
    report.port == port && !report.state.Complete?
  }

  /** What `update` does with one report. */
  function ApplyReport(table: CrawlerTable, report: CrawlerReport): (r: CrawlerTable)
    ensures report.state.Complete? ==> r == table
    ensures report.state.Terminated? ==> report.port !in r
    ensures !report.state.Complete? && !report.state.Terminated? ==> report.port in r && r[report.port] == (0, report.state)
    ensures forall p | p != report.port :: (p in r <==> p in table) && (p in r ==> r[p] == table[p])
  {
    match report.state
    case Complete => table
    case Terminated => table - {report.port}
    case _ => table[report.port := (0, report.state)]
  }

  /** The reports applied in arrival order. */
  function ApplyReports(table: CrawlerTable, reports: seq<CrawlerReport>): (r: CrawlerTable)
    ensures forall p | p in r && p !in table :: exists j | 0 <= j < |reports| :: Touches(reports[j], p)
    decreases |reports|
  {
    if reports == [] then table
    else
      var init := reports[..|reports| - 1];
      assert forall j | 0 <= j < |init| :: init[j] == reports[j];
      ApplyReport(ApplyReports(table, init), reports[|reports| - 1])
  }

  /** The number of `Complete` reports. */
  function CompletedCount(reports: seq<CrawlerReport>): nat
    decreases |reports|
  {
    if reports == [] then 0
    else CompletedCount(reports[..|reports| - 1]) + (if reports[|reports| - 1].state.Complete? then 1 else 0)
  }

  /** Last writer wins: the last report touching `port` decides its entry,
      removal for `Terminated`, a fresh spinner with that state otherwise. */
  lemma {:induction false} LastReportWins(table: CrawlerTable, reports: seq<CrawlerReport>, port: Port, k: nat)
    requires k < |reports| && Touches(reports[k], port)
    requires forall j | k < j < |reports| :: !Touches(reports[j], port)
    ensures reports[k].state.Terminated? ==> port !in ApplyReports(table, reports)
    ensures !reports[k].state.Terminated? ==> port in ApplyReports(table, reports) && ApplyReports(table, reports)[port] == (0, reports[k].state)
    decreases |reports|
  {
    var n := |reports| - 1;
    var init := reports[..n];
    if k < n {
      forall j | k < j < |init| ensures !Touches(init[j], port) {
        assert init[j] == reports[j];
      }
      LastReportWins(table, init, port, k);
    }
  }

  /** A port no report touches keeps its entry, or stays absent. */
  lemma {:induction false} UntouchedPortKept(table: CrawlerTable, reports: seq<CrawlerReport>, port: Port)
    requires forall j | 0 <= j < |reports| :: !Touches(reports[j], port)
    ensures (port in ApplyReports(table, reports)) == (port in table)
    ensures port in table ==> ApplyReports(table, reports)[port] == table[port]
    decreases |reports|
  {
    if reports != [] {
      var init := reports[..|reports| - 1];
      forall j | 0 <= j < |init| ensures !Touches(init[j], port) {
        assert init[j] == reports[j];
      }
      UntouchedPortKept(table, init, port);
    }
  }

  /** Every tracked crawler has a spinner frame in range and is in a state
      that spins: `Complete` and `Terminated` are never stored. */
  ghost predicate TrackedSpin(table: CrawlerTable)
  {
    forall p | p in table :: table[p].0 < 8 && ShouldSpinnerSpin(table[p].1)
  }

  lemma {:induction false} ApplyReportsKeepsTrackedSpin(table: CrawlerTable, reports: seq<CrawlerReport>)
    requires TrackedSpin(table)
    ensures TrackedSpin(ApplyReports(table, reports))
    decreases |reports|
  {
    if reports != [] {
      ApplyReportsKeepsTrackedSpin(table, reports[..|reports| - 1]);
    }
  }

  /** The spinner update applied to one table entry. */
  function Advance(entry: (SpinnerState, CrawlerState)): (SpinnerState, CrawlerState)
  {
    (NextSpinner(entry.0, entry.1), entry.1)
  }

  /** The spinner update applied to every tracked crawler. */
  function AdvanceAll(table: CrawlerTable): CrawlerTable
  {
    map p | p in table :: Advance(table[p])
  }

  // ---------------------------------------------------------------------
  // The frequency view

  /** A snapshot of the shared counter table: the change flag and one
      counter per tag index. */
  datatype FreqTable = FreqTable(dirty: bool, counts: seq<nat>)

  /** The `filter_map` over the enumerated counters: each index that
      `Tag::from_repr` (here the partial map `tags`) names, paired with its
      count, in index order. */
  function Tagged(counts: seq<nat>, tags: map<nat, string>): (r: seq<(string, nat)>)
    ensures |r| <= |counts|
    ensures forall k | 0 <= k < |r| :: r[k].0 in tags.Values
    decreases |counts|
  {
    if counts == [] then []
    else
      var i := |counts| - 1;
      Tagged(counts[..i], tags) + (if i in tags then [(tags[i], counts[i])] else [])
  }

  lemma {:induction false} TaggedMembers(counts: seq<nat>, tags: map<nat, string>, entry: (string, nat))
    ensures entry in Tagged(counts, tags) <==> exists i | 0 <= i < |counts| && i in tags :: entry == (tags[i], counts[i])
    decreases |counts|
  {
    if counts != [] {
      var n := |counts| - 1;
      var init := counts[..n];
      TaggedMembers(init, tags, entry);
      assert forall i | 0 <= i < n :: init[i] == counts[i];
      if entry in Tagged(counts, tags) && entry !in Tagged(init, tags) {
        assert n in tags && entry == (tags[n], counts[n]);
      }
    }
  }

  /** Inserts `x` before the first entry whose count is not larger, so that
      it precedes the entries of equal count that came after it. */
  function Insert(x: (string, nat), s: seq<(string, nat)>): (r: seq<(string, nat)>)
    ensures |r| == |s| + 1
    ensures multiset(r) == multiset(s) + multiset{x}
    decreases |s|
  {
    if s == [] || s[0].1 <= x.1 then [x] + s
    else
      assert s == [s[0]] + s[1..];
      [s[0]] + Insert(x, s[1..])
  }

  /** The stable sort by descending count (`sort_by(|a, b| b.1.cmp(&a.1))`). */
  function SortDesc(s: seq<(string, nat)>): (r: seq<(string, nat)>)
    ensures |r| == |s|
    ensures multiset(r) == multiset(s)
    decreases |s|
  {
    if s == [] then []
    else
      assert s == [s[0]] + s[1..];
      Insert(s[0], SortDesc(s[1..]))
  }

  predicate NonIncreasing(s: seq<(string, nat)>)
  {
    forall i, j | 0 <= i < j < |s| :: s[i].1 >= s[j].1
  }

  /** The entries of `s` whose count is `c`, in order. */
  function WithCount(s: seq<(string, nat)>, c: nat): seq<(string, nat)>
    decreases |s|
  {
    if s == [] then [] else (if s[0].1 == c then [s[0]] else []) + WithCount(s[1..], c)
  }

  lemma {:induction false} InsertHead(x: (string, nat), s: seq<(string, nat)>)
    ensures Insert(x, s)[0] == x || (s != [] && Insert(x, s)[0] == s[0])
    decreases |s|
  {
    if s != [] && s[0].1 > x.1 {
      InsertHead(x, s[1..]);
    }
  }

  lemma {:induction false} InsertSorted(x: (string, nat), s: seq<(string, nat)>)
    requires NonIncreasing(s)
    ensures NonIncreasing(Insert(x, s))
    decreases |s|
  {
    if s == [] || s[0].1 <= x.1 {
      var r := [x] + s;
      forall i, j | 0 <= i < j < |r| ensures r[i].1 >= r[j].1 {
        if i > 0 {
          assert r[i] == s[i - 1] && r[j] == s[j - 1];
        } else {
          assert r[j] == s[j - 1] && s[0].1 >= s[j - 1].1;
        }
      }
    } else {
      var tail := s[1..];
      assert NonIncreasing(tail) by {
        forall i, j | 0 <= i < j < |tail| ensures tail[i].1 >= tail[j].1 {
          assert tail[i] == s[i + 1] && tail[j] == s[j + 1];
        }
      }
      InsertSorted(x, tail);
      InsertHead(x, tail);
      var ins := Insert(x, tail);
      var r := [s[0]] + ins;
      assert s[0].1 >= ins[0].1 by {
        if tail != [] { assert tail[0] == s[1]; }
      }
      forall i, j | 0 <= i < j < |r| ensures r[i].1 >= r[j].1 {
        assert r[j] == ins[j - 1];
        if i > 0 {
          assert r[i] == ins[i - 1];
        } else if j > 1 {
          assert ins[0].1 >= ins[j - 1].1;
        }
      }
    }
  }

  lemma WithCountCons(a: (string, nat), s: seq<(string, nat)>, c: nat)
    ensures WithCount([a] + s, c) == (if a.1 == c then [a] else []) + WithCount(s, c)
  {
    assert ([a] + s)[1..] == s;
  }

  /** Inserting `x` puts it before the entries of its own count and keeps
      every count's entries in order. */
  lemma {:induction false} InsertWithCount(x: (string, nat), s: seq<(string, nat)>, c: nat)
    ensures WithCount(Insert(x, s), c) == (if x.1 == c then [x] else []) + WithCount(s, c)
    decreases |s|
  {
    if s == [] || s[0].1 <= x.1 {
      WithCountCons(x, s, c);
    } else {
      var tail := s[1..];
      InsertWithCount(x, tail, c);
      WithCountCons(s[0], Insert(x, tail), c);
      WithCountCons(s[0], tail, c);
      assert s == [s[0]] + tail;
    }
  }

  /** The sort orders by non-increasing count, is a permutation, and is
      stable: the entries of any one count keep their original order. */
  lemma {:induction false} SortDescCorrect(s: seq<(string, nat)>)
    ensures NonIncreasing(SortDesc(s))
    ensures multiset(SortDesc(s)) == multiset(s)
    ensures forall c :: WithCount(SortDesc(s), c) == WithCount(s, c)
    decreases |s|
  {
    if s != [] {
      SortDescCorrect(s[1..]);
      InsertSorted(s[0], SortDesc(s[1..]));
      assert s == [s[0]] + s[1..];
      forall c ensures WithCount(SortDesc(s), c) == WithCount(s, c) {
        InsertWithCount(s[0], SortDesc(s[1..]), c);
        WithCountCons(s[0], s[1..], c);
      }
    }
  }

  /** The histogram's data, recomputed by `update` when the table is dirty. */
  function FreqView(counts: seq<nat>, tags: map<nat, string>): (v: seq<(string, nat)>)
    ensures multiset(v) == multiset(Tagged(counts, tags))
  {
    SortDesc(Tagged(counts, tags))
  }

  /** The view holds exactly the tagged counters, most frequent first, and
      counters of equal count in index order. */
  lemma FreqViewCorrect(counts: seq<nat>, tags: map<nat, string>)
    ensures NonIncreasing(FreqView(counts, tags))
    ensures multiset(FreqView(counts, tags)) == multiset(Tagged(counts, tags))
    ensures forall c :: WithCount(FreqView(counts, tags), c) == WithCount(Tagged(counts, tags), c)
    ensures forall e :: e in FreqView(counts, tags) <==> exists i | 0 <= i < |counts| && i in tags :: e == (tags[i], counts[i])
  {
    SortDescCorrect(Tagged(counts, tags));
    forall e ensures e in FreqView(counts, tags) <==> exists i | 0 <= i < |counts| && i in tags :: e == (tags[i], counts[i]) {
      TaggedMembers(counts, tags, e);
      assert e in FreqView(counts, tags) <==> e in multiset(FreqView(counts, tags));
      assert e in Tagged(counts, tags) <==> e in multiset(Tagged(counts, tags));
    }
  }

  // ---------------------------------------------------------------------
  // The application state

  class App {
    var freq: seq<(string, nat)>
    var state: AppState
    /** How many shutdown signals have been sent on the watch channel. */
    var shutdownsSent: nat
    var crawledSites: nat
    var totalSites: nat
    var crawlers: CrawlerTable
    /** `Tag::from_repr`: which counter index names which tag. */
    const tags: map<nat, string>

    ghost predicate Valid()
      reads this
    {
      TrackedSpin(crawlers)
    }

    /** The fields the UI loop reads and writes. */
    function Snapshot(): LoopState
      reads this
    {
      LoopState(state, shutdownsSent, crawledSites, crawlers, freq)
    }

    /** `App::new`. */
    constructor (totalSites: nat, tags: map<nat, string>)
      ensures Valid()
      ensures freq == [] && state == Running && shutdownsSent == 0
      ensures crawledSites == 0 && this.totalSites == totalSites && crawlers == map[] && this.tags == tags
    {
      freq := [];
      state := Running;
      shutdownsSent := 0;
      crawledSites := 0;
      this.totalSites := totalSites;
      crawlers := map[];
      this.tags := tags;
    }

    /** `App::on_event`: returns whether the UI loop ends. */
    method OnEvent(e: Event) returns (quit: bool)
      modifies this`state, this`shutdownsSent
      ensures state == EventTransition(old(state), e).state
      ensures shutdownsSent == old(shutdownsSent) + (if EventTransition(old(state), e).sendShutdown then 1 else 0)
      ensures quit == EventTransition(old(state), e).quit
    {
      quit := false;
      match e {
        case Key(key) =>
          if key.code == Char('c') && key.modifiers == {Modifier.Control} {
            state := AppState.ShuttingDown;
            shutdownsSent := shutdownsSent + 1;
          } else if key.code == Enter && state == Done {
            quit := true;
          }
        case OtherEvent =>
      }
    }

    /** `App::update`: refresh the frequency view if the table changed, then
        drain the reports received since the last tick, in arrival order. */
    method Update(table: FreqTable, reports: seq<CrawlerReport>)
      requires Valid()
      modifies this`freq, this`crawledSites, this`crawlers
      ensures Valid()
      ensures freq == if table.dirty then FreqView(table.counts, tags) else old(freq)
      ensures crawledSites == old(crawledSites) + CompletedCount(reports)
      ensures crawlers == ApplyReports(old(crawlers), reports)
      ensures state == old(state) && totalSites == old(totalSites) && shutdownsSent == old(shutdownsSent)
    {
      if table.dirty {
        freq := FreqView(table.counts, tags);
      }
      var i := 0;
      while i < |reports|
        invariant 0 <= i <= |reports|
        invariant freq == if table.dirty then FreqView(table.counts, tags) else old(freq)
        invariant crawlers == ApplyReports(old(crawlers), reports[..i])
        invariant crawledSites == old(crawledSites) + CompletedCount(reports[..i])
      {
        Receive(reports[i]);
        assert reports[..i + 1][..i] == reports[..i];
        i := i + 1;
      }
      assert reports[..i] == reports;
      ApplyReportsKeepsTrackedSpin(old(crawlers), reports);
    }

    /** The body of the drain loop in `App::update`: one received report. */
    method Receive(report: CrawlerReport)
      modifies this`crawledSites, this`crawlers
      ensures crawledSites == old(crawledSites) + if report.state.Complete? then 1 else 0
      ensures crawlers == ApplyReport(old(crawlers), report)
    {
      match report.state {
        case Complete => crawledSites := crawledSites + 1;
        case Terminated => crawlers := crawlers - {report.port};
        case _ => crawlers := crawlers[report.port := (0, report.state)];
      }
    }

    /** The spinner update done by `App::ui` while building the status lines. */
    method Ui()
      requires Valid()
      modifies this`crawlers
      ensures Valid()
      ensures crawlers.Keys == old(crawlers).Keys
      ensures forall p | p in crawlers :: crawlers[p] == Advance(old(crawlers)[p])
      ensures crawlers == AdvanceAll(old(crawlers))
    {
      ghost var start := crawlers;
      var pending := crawlers.Keys;
      while pending != {}
        invariant pending <= start.Keys && crawlers.Keys == start.Keys
        invariant forall p | p in crawlers :: crawlers[p] == if p in pending then start[p] else Advance(start[p])
        invariant TrackedSpin(crawlers)
        decreases pending
      {
        var p :| p in pending;
        crawlers := crawlers[p := Advance(crawlers[p])];
        pending := pending - {p};
      }
      assert crawlers == AdvanceAll(start);
    }
  }

  /** Every crawler the dashboard tracks is shown spinning, so the
      non-spinning branch of the spinner update never fires on them. */
  lemma TrackedCrawlersSpin(table: CrawlerTable, p: Port)
    requires TrackedSpin(table) && p in table
    ensures ShouldSpinnerSpin(table[p].1)
    ensures Advance(table[p]).0 as int == (table[p].0 as int + 1) % 8
  {
  }

  // ---------------------------------------------------------------------
  // The UI loop

  /** What one turn of the `select!` in `Tui::run` handles. A tick says
      whether `terminal.draw` succeeds after the update. */
  datatype LoopInput =
    | CloseSignal
    | TermEvent(event: Event)
    | EventStreamError
    | UiTick(table: FreqTable, reports: seq<CrawlerReport>, drawn: bool)

  /** The application state the loop reads and writes. */
  datatype LoopState = LoopState(state: AppState, shutdownsSent: nat, crawledSites: nat, crawlers: CrawlerTable, freq: seq<(string, nat)>)

  /** One tick: `update`, then the spinner update of `ui`. */
  function Tick(c: LoopState, tags: map<nat, string>, table: FreqTable, reports: seq<CrawlerReport>): LoopState
  {
    c.(freq := if table.dirty then FreqView(table.counts, tags) else c.freq,
       crawledSites := c.crawledSites + CompletedCount(reports),
       crawlers := AdvanceAll(ApplyReports(c.crawlers, reports)))
  }

  /** The loop ends on an event-stream error, on Enter in `Done`, on the
      close signal in `ShuttingDown`, or when drawing fails. */
  predicate Exits(c: LoopState, input: LoopInput)
  {
    || input.EventStreamError?
    || (input.TermEvent? && IsEnter(input.event) && c.state == Done)
    || (input.CloseSignal? && c.state == AppState.ShuttingDown)
    || (input.UiTick? && !input.drawn)
  }

  /** One turn of the loop: the new application state, and whether the loop
      ends. A close signal offered while `Done` is not taken (its branch is
      disabled). */
  function LoopStep(tags: map<nat, string>, c: LoopState, input: LoopInput): (r: (LoopState, bool))
    ensures r.1 <==> Exits(c, input)
    ensures r.1 ==> r.0.state == c.state
    ensures r.0.shutdownsSent >= c.shutdownsSent && r.0.crawledSites >= c.crawledSites
    ensures !input.UiTick? ==> r.0.crawlers == c.crawlers && r.0.freq == c.freq && r.0.crawledSites == c.crawledSites
    ensures input.UiTick? ==> r.0.state == c.state && r.0.shutdownsSent == c.shutdownsSent
  {
    match input
    case CloseSignal =>
      if c.state == Done then (c, false)
      else var r := CloseTransition(c.state); (c.(state := r.state), r.exit)
    case TermEvent(e) =>
      var r := EventTransition(c.state, e);
      (c.(state := r.state, shutdownsSent := c.shutdownsSent + if r.sendShutdown then 1 else 0), r.quit)
    case EventStreamError => (c, true)
    case UiTick(table, reports, drawn) => (Tick(c, tags, table, reports), !drawn)
  }

  /** The loop run over `inputs` from index `i`: the final state, and the
      index of the input that ended the loop, if one did. */
  function LoopFrom(tags: map<nat, string>, c: LoopState, inputs: seq<LoopInput>, i: nat): (r: (LoopState, Option<nat>))
    requires i <= |inputs|
    ensures r.0.shutdownsSent >= c.shutdownsSent && r.0.crawledSites >= c.crawledSites
    ensures r.1.Some? ==> i <= r.1.value < |inputs|
    ensures r.1.Some? ==> Exits(r.0, inputs[r.1.value])
    decreases |inputs| - i
  {
    if i == |inputs| then (c, None)
    else
      var (next, exit) := LoopStep(tags, c, inputs[i]);
      if exit then (next, Some(i)) else LoopFrom(tags, next, inputs, i + 1)
  }

  class Tui {
    const app: App

    constructor (app: App)
      ensures this.app == app
    {
      this.app := app;
    }

    /** One turn of the `select!` in `Tui::run`: handle `input` and say
        whether the loop ends. */
    method Turn(input: LoopInput) returns (exit: bool)
      requires app.Valid()
      modifies app
      ensures app.Valid()
      ensures (app.Snapshot(), exit) == LoopStep(app.tags, old(app.Snapshot()), input)
      ensures app.totalSites == old(app.totalSites)
    {
      exit := false;
      match input {
        case CloseSignal =>
          if app.state == Running {
            app.state := Done;
          } else if app.state == AppState.ShuttingDown {
            exit := true;
          }
        case TermEvent(e) =>
          exit := app.OnEvent(e);
        case EventStreamError =>
          exit := true;
        case UiTick(table, reports, drawn) =>
          app.Update(table, reports);
          app.Ui();
          exit := !drawn;
      }
    }

    /** `Tui::run`: handle the inputs in the order `select!` picked them,
        until a branch ends the loop; returns the index of that input. */
    method Run(inputs: seq<LoopInput>) returns (exitAt: Option<nat>)
      requires app.Valid()
      modifies app
      ensures app.Valid()
      ensures (app.Snapshot(), exitAt) == LoopFrom(app.tags, old(app.Snapshot()), inputs, 0)
      ensures app.totalSites == old(app.totalSites)
    {
      ghost var start := app.Snapshot();
      var i := 0;
      while i < |inputs|
        invariant 0 <= i <= |inputs|
        invariant app.Valid()
        invariant LoopFrom(app.tags, app.Snapshot(), inputs, i) == LoopFrom(app.tags, start, inputs, 0)
        invariant app.totalSites == old(app.totalSites)
      {
        var exit := Turn(inputs[i]);
        if exit {
          return Some(i);
        }
        i := i + 1;
      }
      return None;
    }
  }
}
