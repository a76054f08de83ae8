# quotelementa core, modelled in Dafny

quotelementa crawls a list of web sites with a pool of WebDriver-controlled
browsers. For every page it counts the HTML tag names in use. A terminal
dashboard shows the crawlers and a histogram of the counts. This project
models the sequential logic at the centre of that program, in four parts:

- **Assigner** (`assigner.dfy`). The job assigner reads the site list line by
  line. It turns each line into `https://` + line, parses it as a URL and
  pushes it onto the bounded job queue, which holds 10 jobs. It stops at end
  of input, at the first read or parse error, or when shutdown wins the race
  against the next line. The queue is a class with a FIFO `items` field.
  While the queue is full, a push waits for a consumer, modelled as the oldest
  job moving to `taken`.
- **PageState** (`page_state.dfy`). `State::accept_node` is one step of the
  fold the crawler runs over a page's elements:
  - if the tag-name lookup fails, the element is skipped;
  - web components (names with a `-`) are skipped;
  - a `div` whose rectangle cannot be read is an error;
  - any other name has its counter bumped in a `map<string, nat>`.

  `Output::merge` has `HashMap::extend` semantics: keys of the right-hand
  table overwrite.
- **Chart** (`chart.dfy`). `BarChart::render` is modelled as a class method
  that writes into a buffer class holding an `array2` of bar levels (0 to 8)
  and a log of the strings written. The method:
  - computes how many bars fit;
  - scales each value into eighths of a cell;
  - paints the rows of each bar from the bottom up;
  - centres the value labels and tag labels.
- **Dashboard** (`dashboard.dfy`). This part covers:
  - the Running / ShuttingDown / Done state machine, driven by key events and the close signal;
  - the fold of crawler reports into the table of active crawlers;
  - the spinner animation, which counts modulo 8;
  - the frequency view, a stable sort by descending count;
  - `Tui::run`'s loop over the inputs in the order `select!` picked them.

`common.dfy` holds the shared `Option`, `Result`, `Outcome` and `Url` types.

Several collaborators are parameters of the model:
- the line stream (`source` + `end`);
- the URL parser (`parse`);
- the point at which shutdown wins (`shutdownAt`);
- the browser's answers about an element (`Element`);
- `Tag::from_repr` (`tags`);
- label display widths (`Label.width`);
- the sequence of loop inputs.

Some details of the code that the model follows:
- The definition of `CrawlerState` (in src/crawler.rs's module tree) is not
  part of this model. Its variants are taken from their uses: Initializing,
  InProgress and ShuttingDown (src/tui.rs:286-299), and Complete and
  Terminated (src/tui.rs:166-175). `CrawlerState` has exactly these five.
  `TrackedSpin`, `ApplyReportsKeepsTrackedSpin` and `TrackedCrawlersSpin`
  rest on this choice: an extra non-spinning variant would be stored by
  src/tui.rs:173-174 and reset to frame 0 by src/tui.rs:188-189.
- src/state.rs:9 keys a `HashMap` by the raw tag name and filters only
  hyphenated names, and that is what `PageState` models.
- src/tui.rs:155-157 reads the shared table through `is_dirty()`/`get()`,
  which src/state.rs:9 (a plain `HashMap`) does not provide; the type that
  provides them is not part of this model. `Update` therefore takes the
  table as a snapshot (`FreqTable`): a change flag plus one counter per tag
  index.
- The assigner prefixes the whole line unchanged (src/assigner.rs:32), and
  the queue holds 10 jobs (src/main.rs:106).
- src/main.rs:58 declares the queue over `String`, while the assigner pushes
  `Url`s (src/assigner.rs:33). The model queues `Url`s.

## Model

| member | source | states |
|---|---|---|
| PageState.Merge | src/state.rs:12-14 | the keys of the result are the union of both tables; keys of `other` take `other`'s value; keys only in `base` keep theirs |
| PageState.MergeOverwritesShared | src/state.rs:12-14 | a key in both tables ends with `other`'s value, which is not the sum of the two values |
| PageState.New | src/state.rs:24-31 | a failed window-size query is returned as the error; otherwise the state has an empty table and the queried width and height |
| PageState.AcceptNode | src/state.rs:33-57 | a failed name lookup or a hyphenated name leaves the state unchanged with `Ok`; it fails exactly for a `div` whose rectangle fails, with that error; otherwise exactly the counter of the name goes up by one, an absent name starts from 0, no other key changes and the window size is kept |
| PageState.AcceptAll | src/crawler.rs:115-118 | `try_fold` of `accept_node`: a successful fold keeps the window size; a failed fold fails with the rectangle error of some element whose `div` rectangle fails |
| PageState.AcceptAllCounts | src/state.rs:55 | folding elements with no failing `div` succeeds, keeps the window size, and gives each counter its initial value plus the number of elements that contribute that name, with exactly those names added as keys |
| PageState.AcceptAllFails | src/state.rs:44-47 | the fold fails with the rectangle error of the first failing `div` |
| PageState.OccurrencesPermutation | src/state.rs:55 | two element sequences that are permutations of each other contribute the same number of each name |
| PageState.AcceptAllOrderIndependent | src/state.rs:55 | when no `div` fails, the final state does not depend on the order of the elements |
| Chart.Buffer.Set | src/tui/bar_chart.rs:160-164 | `get_mut(x, y).set_symbol`: exactly cell (x, y) gets the level and every other cell keeps its level |
| Chart.MaxValue | src/tui/bar_chart.rs:133 | the result bounds every value, is attained by some value, and is 0 for no data |
| Chart.EffectiveMax | src/tui/bar_chart.rs:131-134 | an explicit maximum is used as given; without one the result bounds every value, is attained by some value, and is 0 for no data |
| Chart.Divisor | src/tui/bar_chart.rs:144 | `max.max(1)` is at least 1 and at least `max`, equals `max` when `max` is positive, and is 1 when `max` is 0 |
| Chart.BarCount | src/tui/bar_chart.rs:136-139 | the count is at most the number of bars, the bars fit in the width, and either all bars are drawn or one more would not fit |
| Chart.Scaled | src/tui/bar_chart.rs:144 | the result is the floor of value × rows × 8 divided by the divisor: it times the divisor is at most the product, and one more times the divisor exceeds it |
| Chart.ScaledValues | src/tui/bar_chart.rs:144 | one scaled value per bar, each the value times rows times eight divided by the divisor |
| Chart.Level | src/tui/bar_chart.rs:146-157 | the level of row k above the bottom is min(8, scaled − 8k), saturating at 0, and never above a full cell |
| Chart.Digits | src/tui/bar_chart.rs:178 | `format!("{value}")` is a non-empty string of decimal digits with no leading zero, and is exactly `"0"` for 0 |
| Chart.DigitsRoundTrip | src/tui/bar_chart.rs:178 | reading the digits back gives the value |
| Chart.Centred | src/tui/bar_chart.rs:182-184 | the text starts at the centring offset, stays within the bar's columns, and the left margin is the right margin or one less |
| Chart.BarChart.constructor | src/tui/bar_chart.rs:41-55 | a new chart has bar width 1, gap 1, no explicit maximum and the given data |
| Chart.BarChart.SetData | src/tui/bar_chart.rs:56-59 | replaces the data and nothing else |
| Chart.BarChart.SetMax | src/tui/bar_chart.rs:66-69 | sets the explicit maximum and nothing else |
| Chart.BarChart.SetBarWidth | src/tui/bar_chart.rs:76-79 | replaces the bar width and nothing else |
| Chart.BarChart.SetBarGap | src/tui/bar_chart.rs:81-84 | replaces the bar gap and nothing else |
| Chart.BarChart.Render | src/tui/bar_chart.rs:109-200 | with fewer than 2 rows, neither the cells nor the labels change; otherwise every cell's bar level is what the first `BarCount` bars, scaled against the effective maximum, paint over it, and the labels of exactly those bars are appended in order |
| Chart.PaintBars | src/tui/bar_chart.rs:143-174 | after the bar loop, every cell shows the level of its row in the bar covering it, or its old level |
| Chart.PaintBar | src/tui/bar_chart.rs:146-173 | the rows of one bar, painted bottom to top: exactly the cells of its box get the level of their row, and all others are unchanged |
| Chart.WriteLabels | src/tui/bar_chart.rs:176-199 | the label loop appends the labels of every drawn bar, in bar order |
| Chart.WriteBarLabels | src/tui/bar_chart.rs:177-198 | one pass of the loop appends the value label, only when narrower than the bar, then the tag label cut to the bar width |
| Chart.DivBound | src/tui/bar_chart.rs:144 | a dividend of at most b·d divided by d is at most b, and exactly b for a dividend of exactly b·d |
| Chart.BarLeftProduct | src/tui/bar_chart.rs:161 | the left edge of bar i is the area's left plus i strides |
| Chart.BarsApart | src/tui/bar_chart.rs:159-166 | a later bar starts at or right of the end of an earlier one, so no two bars share a cell |
| Chart.BarsInsideArea | src/tui/bar_chart.rs:136-141 | each bar that fits in the width lies inside the area |
| Chart.PaintedCovered | src/tui/bar_chart.rs:159-166 | a cell inside bar i shows the level of its row in bar i, whatever the other bars and the old level |
| Chart.PaintedUncovered | src/tui/bar_chart.rs:159-166 | a cell no drawn bar covers keeps its old level |
| Chart.GapsKept | src/tui/bar_chart.rs:146-161 | the gap columns between bars and the tag row are never painted |
| Chart.BarCell | src/tui/bar_chart.rs:144-173 | column `offset` of bar i, row j from the top, shows Level(scaled value, rows − 1 − j) |
| Chart.BarNonIncreasingUpward | src/tui/bar_chart.rs:146-172 | within a bar, a cell never shows more than any cell below it |
| Chart.ScaledFits | src/tui/bar_chart.rs:144 | a value no larger than the maximum scales to at most 8 eighths per row, and a value equal to a positive maximum to exactly that |
| Chart.MaxBarFull | src/tui/bar_chart.rs:144-173 | a bar whose value equals a positive maximum is full in every row |
| Chart.TallestBarReachesTop | src/tui/bar_chart.rs:131-134 | with no explicit maximum, the bar with the largest positive value is full on the top row |
| Chart.BarLabels | src/tui/bar_chart.rs:176-198 | a bar writes two labels when its value is narrower than the bar, else one, and the last is the tag cut to the bar width |
| Chart.LabelWrites | src/tui/bar_chart.rs:176-199 | the first n bars write between n and 2n labels |
| Chart.BarLabelsPlaced | src/tui/bar_chart.rs:176-198 | a bar has two labels if its value is narrower than the bar, else one; the tag is on the last row, cut to the bar width and centred in the bar; the value is on the row above, with no limit, and centred in the bar |
| Dashboard.ShouldSpinnerSpin | src/tui.rs:294-299 | holds exactly for the states other than Complete and Terminated |
| Dashboard.SpinnerColor | src/tui.rs:286-293 | the colour is dark grey exactly for the states that do not spin |
| Dashboard.NextSpinner | src/tui.rs:185-191 | the frame stays below 8; a spinning state advances it by one modulo 8; any other state resets it to 0 |
| Dashboard.EventTransition | src/tui.rs:129-152 | Ctrl-C in any state gives ShuttingDown, sends one shutdown and does not quit; any other event leaves the state unchanged and sends nothing; the loop ends exactly on Enter in Done |
| Dashboard.CloseTransition | src/tui.rs:61-70 | the close signal moves Running to Done and makes ShuttingDown exit; it is not handled in Done |
| Dashboard.ApplyReport | src/tui.rs:166-176 | a Complete report leaves the table unchanged; Terminated removes the port; any other state stores it with spinner 0; every other port keeps its entry or stays absent |
| Dashboard.ApplyReports | src/tui.rs:165-177 | a port tracked after draining is either tracked before or named by some report with a state other than Complete |
| Dashboard.LastReportWins | src/tui.rs:165-177 | the last report that names a port with a state other than Complete decides its entry: Terminated removes it, any other state stores it with spinner 0 |
| Dashboard.UntouchedPortKept | src/tui.rs:165-177 | a port that no such report names keeps its entry, or stays absent |
| Dashboard.ApplyReportsKeepsTrackedSpin | src/tui.rs:170-175 | every tracked crawler has a frame below 8 and a spinning state, before and after draining reports |
| Dashboard.Tagged | src/tui.rs:158-162 | the filtered counters are at most as many as the counters, and each carries the name of a tag |
| Dashboard.TaggedMembers | src/tui.rs:158-162 | the filtered counters are exactly the pairs (tag name, count) for indices that name a tag |
| Dashboard.Insert | src/tui.rs:163 | inserting one entry adds exactly that entry: one more element, and the multiset grows by the entry |
| Dashboard.SortDesc | src/tui.rs:163 | the sort keeps the length and the multiset of entries |
| Dashboard.InsertSorted | src/tui.rs:163 | inserting into a sequence sorted by non-increasing count keeps it sorted |
| Dashboard.InsertWithCount | src/tui.rs:163 | inserting puts the entry before the entries of equal count and keeps each count's order |
| Dashboard.SortDescCorrect | src/tui.rs:163 | the sort is by non-increasing count, is a permutation, and is stable |
| Dashboard.FreqView | src/tui.rs:158-163 | the view holds the same entries, with the same multiplicities, as the filtered counters |
| Dashboard.FreqViewCorrect | src/tui.rs:155-163 | the view holds exactly the tagged counters, sorted by non-increasing count, with equal counts in index order |
| Dashboard.App.constructor | src/tui.rs:111-127 | a new app is Running, has crawled no sites, tracks no crawlers, has an empty view and keeps the total |
| Dashboard.App.OnEvent | src/tui.rs:129-152 | state, shutdowns sent and return value follow `EventTransition` |
| Dashboard.App.Update | src/tui.rs:154-178 | the view is recomputed only when the table changed; the site count grows by exactly the Complete reports; the crawler table is the reports applied in arrival order; nothing else changes |
| Dashboard.App.Receive | src/tui.rs:166-176 | one report: Complete adds one crawled site; the crawler table becomes `ApplyReport` of it |
| Dashboard.App.Ui | src/tui.rs:180-191 | every tracked crawler keeps its state and advances its spinner, and the set of ports is unchanged |
| Dashboard.TrackedCrawlersSpin | src/tui.rs:185-191 | every tracked crawler spins, so its spinner advances by one modulo 8 |
| Dashboard.LoopStep | src/tui.rs:60-79 | one turn ends the loop exactly on an event-stream error, on Enter in Done, on the close signal in ShuttingDown, or when drawing fails; an ending turn keeps the state; only a tick changes the crawler table, the view and the site count, and a tick leaves the state and shutdowns sent alone; shutdowns sent and sites crawled never decrease |
| Dashboard.LoopFrom | src/tui.rs:59-80 | shutdowns sent and sites crawled only grow, and the loop exits only on an event-stream error, on Enter in Done, on the close signal in ShuttingDown, or when `terminal.draw` fails |
| Dashboard.Tui.constructor | src/tui.rs:37-47 | the UI owns the given app |
| Dashboard.Tui.Turn | src/tui.rs:60-78 | one turn of the `select!` changes the app's state, shutdowns sent, sites crawled, crawler table and view exactly as `LoopStep` says, and ends the loop exactly when `LoopStep` does |
| Dashboard.Tui.Run | src/tui.rs:55-83 | the app's state, shutdowns sent, sites crawled, crawler table and frequency view, and the exit point, are exactly those of `LoopFrom` over the inputs; the total is kept |
| Assigner.JobQueue.constructor | src/main.rs:106 | the queue starts empty with capacity `QUEUE_CAPACITY`, which is 10 |
| Assigner.JobQueue.Push | src/assigner.rs:33 | the job is appended at the back; it is queued directly only with fewer than `capacity` items; a full queue first hands its oldest job to a consumer |
| Assigner.JobQueue.TryPop | src/crawler.rs:85-88 | a consumer takes the oldest job, or nothing from an empty queue |
| Assigner.Prefixed | src/assigner.rs:32 | the parsed text is `https://` followed by the line, unchanged |
| Assigner.Jobs | src/assigner.rs:29-33 | when every line parses, one job per line, in line order |
| Assigner.StopFrom | src/assigner.rs:25-36 | the run stops at the first index where shutdown wins, the input ends or a line fails to parse, and every earlier line parsed |
| Assigner.RunOutcome | src/assigner.rs:24-39 | the run succeeds exactly when shutdown stops it or every line is read and the file ends; a URL error carries the prefixed text of the line at the stop point, which fails to parse; an I/O error is the read error after the last line |
| Assigner.Run | src/assigner.rs:24-39 | the result is `RunOutcome`, and the queue receives exactly the jobs of the lines before the stop point, in order |
| Assigner.AllLinesQueued | src/assigner.rs:29-33 | with no shutdown and every line well formed, every line is queued in order, and end of file gives `Ok` while a read error gives that error |
| Assigner.ShutdownStopsCleanly | src/assigner.rs:24-38 | a shutdown before any bad line stops the run with `Ok`, after exactly the lines read before it |
| Assigner.BadLineStopsWithError | src/assigner.rs:30-33 | the first line that fails to parse, before any shutdown, ends the run with that error; no later line is pushed |

## Left out

- src/crawler.rs and src/main.rs: spawning WebDriver processes, browser navigation, DOM queries, CLI parsing, tracing setup and task spawning are I/O and task wiring. The fold over a page's elements appears through `PageState.AcceptAll`.
- Concurrency: the `watch`, `oneshot` and `mpsc` channels and the `select!` races in src/tui.rs:60-79 and src/assigner.rs:26-35 are replaced by sequences of inputs and by the `shutdownAt` index.
- Assigner.JobQueue.Push: waiting on a full queue is modelled as a consumer taking the oldest job. Consumer scheduling and blocking forever are not modelled.
- PageState.AcceptAll: the crawler folds over `std::mem::take(&mut self.state)` and returns with `?` on an error (src/crawler.rs:115-118), so after a failing `div` rectangle its `state` is left at `Default`, losing all counts and the window size. The model's `Err` carries no state and does not model what the crawler keeps.
- PageState.AcceptNode: the `div` rectangle's floating-point normalisation (src/state.rs:46-50) is only logged in the source; the model keeps only whether reading the rectangle succeeds.
- The dashboard's progress gauge (floating point), its layout, styles, colours beyond `spinner_color`, terminal raw mode and the alternate screen are rendering only.
- Chart: the bar set's glyphs and all styles are not modelled. A cell holds its bar level 0..8, and strings are recorded as a separate log of writes: the grid is the bar layer only. In the source, `set_string` replaces the symbols of the cells it writes, so the log applies over the grid in order. The value label (src/tui/bar_chart.rs:181-188) lands on the bars' own bottom row and overwrites the bar cells under its digits; the model's grid still shows the bar level there. `set_string` clipping at the buffer edge and the `Block` border are not modelled. `Render` is given the area inside the block.
- Chart.BarChart.SafeFor: with fewer than two rows `render` returns at src/tui/bar_chart.rs:121-123 and `SafeFor` asks only for an area whose edges fit in a u16. With at least two rows, `Render` requires every drawn tag label to be at most as wide as the bar, because `bar_width - label.width()` at line 193 would underflow otherwise (the dashboard uses a bar width of 10). It also requires a non-zero u16 stride (line 137) and that value × (height − 1) × 8 fits in a u64 (line 144). So the model does not describe overflow.
- Chart.Label: display widths (`unicode_width`) are given as numbers, not computed from the text.
- Dashboard.App.Update: the dirty flag is read from a snapshot. How the shared table sets or clears it is not part of this model.
- Dashboard.App.OnEvent: `shutdown_tx.send(()).unwrap()` panics when every receiver has been dropped; the model counts shutdown signals sent and does not model that panic.
- Dashboard.LoopStep: src/main.rs:90 sends the close signal once, and only the close branch (src/tui.rs:61-63) takes the app to Done, consuming the `oneshot`. Any Ctrl-C in Done moves the app to ShuttingDown, which re-enables the `state != Done` guard; the next `select!` may then poll the completed receiver, which tokio rejects with a panic. That panic is not modelled. Input sequences with more than one `CloseSignal` cannot occur in the source; the model accepts them and treats a later one as a fresh close signal.
- Counters such as `crawled_sites` are unbounded naturals; `usize` overflow is not modelled.
- `url::Url::parse` is an abstract function parameter; `Tag::from_repr` is an abstract partial map from index to name.
