/** The job assigner: reads the site list line by line, turns each line into
    an `https://` URL and pushes it onto the bounded job queue that the
    crawlers pop from, until the input ends, a line fails or shutdown is
    requested. */
module Assigner {
  import opened Common

  /** The job queue's capacity, fixed where the queue is created. */
  const QUEUE_CAPACITY: nat := 10

  /** The scheme prepended to every line. */
  const SCHEME: string := "https://"

  /** An I/O error from reading the site list; its content is opaque here. */
  datatype IoError = IoError(code: nat)

  /** How the line stream ends after its last line: end of file, or a read error. */
  datatype SourceEnd = Eof | ReadFailed(error: IoError)

  datatype Error = Io(error: IoError) | BadUrl(text: string)

  /** The bounded FIFO shared between the assigner and the crawlers.
      `items` is what is queued, oldest first; `taken` is what consumers
      have popped, in pop order. */
  class JobQueue {
    const capacity: nat
    var items: seq<Url>
    var taken: seq<Url>

    ghost predicate Valid()
      reads this
    {
      0 < capacity && |items| <= capacity
    }

    /** `Queue::new(QUEUE_CAPACITY)`. */
    constructor ()
      ensures Valid()
      ensures capacity == QUEUE_CAPACITY && items == [] && taken == []
    {
      capacity := QUEUE_CAPACITY;
      items := [];
      taken := [];
    }

    /** Appends `job`. A full queue makes the caller wait until a consumer
        has taken the oldest job; the element is appended only once fewer
        than `capacity` items are queued. */
    method Push(job: Url)
      requires Valid()
      modifies this
      ensures Valid()
      ensures taken + items == old(taken + items) + [job]
      ensures |old(items)| < capacity ==> items == old(items) + [job] && taken == old(taken)
      ensures |old(items)| == capacity ==> items == old(items)[1..] + [job] && taken == old(taken) + [old(items)[0]]
    {
      if |items| == capacity {
        // waiting: a consumer pops the oldest job
        taken := taken + [items[0]];
        items := items[1..];
      }
      items := items + [job];
    }

    /** A consumer's non-blocking pop: the oldest job, or nothing when empty. */
    method TryPop() returns (job: Option<Url>)
      requires Valid()
      modifies this
      ensures Valid()
      ensures taken + items == old(taken + items)
      ensures old(items) == [] ==> job == None && items == [] && taken == old(taken)
      ensures old(items) != [] ==> job == Some(old(items)[0]) && items == old(items)[1..]
    {
      if items == [] {
        job := None;
      } else {
        job := Some(items[0]);
        taken := taken + [items[0]];
        items := items[1..];
      }
    }
  }

  /** The text handed to the URL parser for one line: the scheme, then the
      line exactly as read. */
  function Prefixed(line: string): (site: string)
    ensures |site| == |SCHEME| + |line|
    ensures site[..|SCHEME|] == SCHEME && site[|SCHEME|..] == line
  {
    SCHEME + line
  }

  /** The jobs pushed for `lines`, in order: the parse of each prefixed line. */
  function Jobs(lines: seq<string>, parse: string -> Option<Url>): (jobs: seq<Url>)
    ensures (forall i | 0 <= i < |lines| :: parse(Prefixed(lines[i])).Some?) ==>
              |jobs| == |lines| && forall i | 0 <= i < |lines| :: jobs[i] == parse(Prefixed(lines[i])).value
    decreases |lines|
  {
    if lines == [] then []
    else
      var init := lines[..|lines| - 1];
      assert forall i | 0 <= i < |init| :: init[i] == lines[i];
      Jobs(init, parse) + match parse(Prefixed(lines[|lines| - 1])) { case Some(u) => [u] case None => [] }
  }

  /** The number of lines the run gets through before it stops, counting
      from `from`: the first index at which shutdown wins, the input ends,
      or the prefixed line fails to parse. */
  function StopFrom(source: seq<string>, shutdownAt: nat, parse: string -> Option<Url>, from: nat): (stop: nat)
    requires from <= |source|
    ensures from <= stop <= |source|
    ensures stop == |source| || stop == shutdownAt || parse(Prefixed(source[stop])).None?
    ensures from <= shutdownAt ==> stop <= shutdownAt
    ensures forall i | from <= i < stop :: parse(Prefixed(source[i])).Some?
    decreases |source| - from
  {
    if from == shutdownAt || from == |source| || parse(Prefixed(source[from])).None? then from
    else StopFrom(source, shutdownAt, parse, from + 1)
  }

  function Stop(source: seq<string>, shutdownAt: nat, parse: string -> Option<Url>): nat
  {
    StopFrom(source, shutdownAt, parse, 0)
  }

  /** What `run` returns for a given input: shutdown and end of file give
      `Ok`, a read error or an unparsable line gives that error. */
  function RunOutcome(source: seq<string>, end: SourceEnd, shutdownAt: nat, parse: string -> Option<Url>): (r: Result<(), Error>)
    ensures var stop := Stop(source, shutdownAt, parse);
      r.Ok? <==> stop == shutdownAt || (stop == |source| && end.Eof?)
    ensures var stop := Stop(source, shutdownAt, parse);
      r.Err? && r.error.BadUrl? ==> stop < |source| && parse(Prefixed(source[stop])).None? && r.error.text == Prefixed(source[stop])
    ensures var stop := Stop(source, shutdownAt, parse);
      r.Err? && r.error.Io? ==> stop == |source| && end == ReadFailed(r.error.error)
  {
    var stop := Stop(source, shutdownAt, parse);
    if stop == shutdownAt then Ok(())
    else if stop < |source| then Err(BadUrl(Prefixed(source[stop])))
    else match end
      case Eof => Ok(())
      case ReadFailed(e) => Err(Io(e))
  }

  /** `Assigner::run`. `source` holds the lines the file yields and `end`
      what the read after the last one returns; `shutdownAt` is the read
      at which the shutdown signal wins the race against the next line
      (any value past the input means it never does). */
  method Run(queue: JobQueue, source: seq<string>, end: SourceEnd, shutdownAt: nat, parse: string -> Option<Url>)
    returns (r: Result<(), Error>)
    requires queue.Valid()
    modifies queue
    ensures queue.Valid()
    ensures r == RunOutcome(source, end, shutdownAt, parse)
    ensures queue.taken + queue.items == old(queue.taken + queue.items) + Jobs(source[..Stop(source, shutdownAt, parse)], parse)
  {
    ghost var before := queue.taken + queue.items;
    ghost var stop := Stop(source, shutdownAt, parse);
    var i := 0;
    assert source[..0] == [];
    while true
      invariant 0 <= i <= stop <= |source|
      invariant queue.Valid()
      invariant queue.taken + queue.items == before + Jobs(source[..i], parse)
      decreases |source| - i
    {
      if i == shutdownAt {
        assert i == stop;
        r := Ok(());
        return;
      }
      if i == |source| {
        match end {
          case Eof => r := Ok(());
          case ReadFailed(e) => r := Err(Io(e));
        }
        return;
      }
      var site := SCHEME + source[i];
      match parse(site) {
        case None =>
          r := Err(BadUrl(site));
          return;
        case Some(url) =>
          assert source[..i + 1][..i] == source[..i];
          queue.Push(url);
      }
      i := i + 1;
    }
  }

  /** With no shutdown before the end and every line well formed, the
      queue receives exactly one job per line, in file order. */
  lemma AllLinesQueued(source: seq<string>, end: SourceEnd, shutdownAt: nat, parse: string -> Option<Url>)
    requires shutdownAt > |source|
    requires forall i | 0 <= i < |source| :: parse(Prefixed(source[i])).Some?
    ensures Stop(source, shutdownAt, parse) == |source|
    ensures RunOutcome(source, end, shutdownAt, parse) == (if end == Eof then Ok(()) else Err(Io(end.error)))
    ensures |Jobs(source, parse)| == |source|
    ensures forall i | 0 <= i < |source| :: Jobs(source, parse)[i] == parse(Prefixed(source[i])).value
  {
  }

  /** A shutdown that wins before any bad line stops the run cleanly, and
      only the lines before it were pushed. */
  lemma ShutdownStopsCleanly(source: seq<string>, end: SourceEnd, shutdownAt: nat, parse: string -> Option<Url>)
    requires shutdownAt <= |source|
    requires forall i | 0 <= i < shutdownAt :: parse(Prefixed(source[i])).Some?
    ensures Stop(source, shutdownAt, parse) == shutdownAt
    ensures RunOutcome(source, end, shutdownAt, parse) == Ok(())
  {
  }

  /** The first line that fails to parse, read before any shutdown, ends the
      run with that error, and no later line is pushed. */
  lemma BadLineStopsWithError(source: seq<string>, end: SourceEnd, shutdownAt: nat, parse: string -> Option<Url>, bad: nat)
    requires bad < |source| && bad < shutdownAt
    requires parse(Prefixed(source[bad])).None?
    requires forall i | 0 <= i < bad :: parse(Prefixed(source[i])).Some?
    ensures Stop(source, shutdownAt, parse) == bad
    ensures RunOutcome(source, end, shutdownAt, parse) == Err(BadUrl(Prefixed(source[bad])))
  {
  }
}
