/** Reading a recording in parallel and in order (parallel_file_read_manager.go): a reader, a
    pool of parsers, and a consumer that calls next(), joined by channels. */
module ParallelReader {
  import opened Bytes

  type Raw = seq<Byte>

  datatype Parsed = Parsed(op: int, failed: bool)

  /** The documents that can be read, whether a read error follows them, what parsing makes
      of a document, and the number of workers, which is also the number of result managers. */
  datatype File = File(docs: seq<Raw>, breaks: bool, parse: Raw -> Parsed, n: nat)

  /** A parse job; `pos` is its document's place in the file, which no goroutine looks at. */
  datatype Job = Job(raw: Raw, mgr: nat, pos: nat)

  datatype Reader =
    | Reading
    | HasDoc(raw: Raw, mgr: nat)
    | HasToken(raw: Raw, mgr: nat)
    | Stopping
    | Closing
    | ReaderDone

  datatype Worker = Free | Parsing(job: Job) | Sending(job: Job) | Returning(job: Job) | WorkerDone {
    predicate Busy() { Parsing? || Sending? || Returning? }
  }

  /** Where the one token of a result manager is: in its `available` channel, with the
      reader, with a queued job, with a worker, or gone with a job that was dropped. */
  datatype Place = InChannel | WithReader | WithQueue | WithWorker(w: nat) | Lost

  /** `available[m]` holds a token; the managers' channels are closed in order, `resultClosed`
      and `availableClosed` counting how many.  `token` only keeps books. */
  datatype State = State(
    reader: Reader, pos: nat, readerIndex: nat, err: bool, stop: bool,
    available: seq<bool>, queue: seq<Job>, jobsClosed: bool,
    workers: seq<Worker>, resultClosed: nat, availableClosed: nat,
    index: nat, inNext: bool, results: seq<Parsed>, eof: bool,
    token: seq<Place>)

  datatype Label =
    | Read
    | TakeToken
    | SendJob
    | CloseStop
    | CloseJobs
    | Receive(w: nat)
    | Parse(w: nat)
    | Deliver(w: nat)
    | Quit(w: nat)
    | Return(w: nat)
    | Exit(w: nat)
    | CloseResult
    | CloseAvailable
    | CallNext
    | SeeEnd

  /** begin. */
  function Begin(f: File): State {
    State(Reading, 0, 0, false, false, seq(f.n, _ => true), [], false, seq(f.n, _ => Free), 0, 0,
          0, false, [], false, seq(f.n, _ => InChannel))
  }

  predicate Worker?(f: File, s: State, w: nat) {
    w < f.n && w < |s.workers|
  }

  predicate JobOk(f: File, s: State, w: nat) {
    Worker?(f, s, w) && s.workers[w].Busy() && s.workers[w].job.mgr < |s.token| && |s.token| == |s.available|
  }

  predicate AllDone(s: State) {
    forall w <- s.workers :: w == WorkerDone
  }

  predicate Enabled(f: File, s: State, l: Label) {
    match l
    case Read => s.reader.Reading? && s.pos <= |f.docs|
    case TakeToken =>
      && s.reader.HasDoc? && s.reader.mgr < |s.available| && |s.token| == |s.available|
      && (s.available[s.reader.mgr] || s.reader.mgr < s.availableClosed)
    case SendJob => s.reader.HasToken? && |s.queue| < f.n && s.reader.mgr < |s.token| && s.pos > 0
    case CloseStop => s.reader.Stopping?
    case CloseJobs => s.reader.Closing?
    case Receive(w) => Worker?(f, s, w) && s.workers[w].Free? && s.queue != [] && s.queue[0].mgr < |s.token|
    case Parse(w) => Worker?(f, s, w) && s.workers[w].Parsing?
    case Deliver(w) => JobOk(f, s, w) && s.workers[w].Sending? && s.inNext && s.index == s.workers[w].job.mgr
    case Quit(w) => JobOk(f, s, w) && s.workers[w].Sending? && s.stop
    case Return(w) => JobOk(f, s, w) && s.workers[w].Returning? && !s.available[s.workers[w].job.mgr]
    case Exit(w) => Worker?(f, s, w) && s.workers[w].Free? && s.queue == [] && s.jobsClosed
    case CloseResult => AllDone(s) && s.resultClosed == s.availableClosed < f.n
    case CloseAvailable => s.resultClosed == s.availableClosed + 1
    case CallNext => !s.inNext && !s.eof
    case SeeEnd => s.inNext && s.index < s.resultClosed
  }

  function Next(i: nat, n: nat): nat {
    if n == 0 then 0 else (i + 1) % n
  }

  function AfterRead(f: File, s: State): State
    requires Enabled(f, s, Read)
  {
    var s' := s.(readerIndex := Next(s.readerIndex, f.n));
    if s.pos < |f.docs| then s'.(reader := HasDoc(f.docs[s.pos], s.readerIndex), pos := s.pos + 1)
    else if f.breaks then s'.(reader := Stopping, err := true)
    else s'.(reader := Closing)
  }

  function SetWorker(s: State, w: nat, x: Worker): State
    requires w < |s.workers|
  {
    s.(workers := s.workers[w := x])
  }

  function After(f: File, s: State, l: Label): State
    requires Enabled(f, s, l)
  {
    match l
    case Read => AfterRead(f, s)
    case TakeToken =>
      s.(reader := HasToken(s.reader.raw, s.reader.mgr), available := s.available[s.reader.mgr := false],
         token := s.token[s.reader.mgr := WithReader])
    case SendJob =>
      s.(reader := Reading, queue := s.queue + [Job(s.reader.raw, s.reader.mgr, s.pos - 1)],
         token := s.token[s.reader.mgr := WithQueue])
    case CloseStop => s.(reader := Closing, stop := true)
    case CloseJobs => s.(reader := ReaderDone, jobsClosed := true)
    case Receive(w) =>
      SetWorker(s, w, Parsing(s.queue[0])).(queue := s.queue[1..], token := s.token[s.queue[0].mgr := WithWorker(w)])
    case Parse(w) => SetWorker(s, w, Sending(s.workers[w].job))
    case Deliver(w) =>
      SetWorker(s, w, Returning(s.workers[w].job))
        .(results := s.results + [f.parse(s.workers[w].job.raw)], index := Next(s.index, f.n), inNext := false)
    case Quit(w) => SetWorker(s, w, WorkerDone).(token := s.token[s.workers[w].job.mgr := Lost])
    case Return(w) =>
      SetWorker(s, w, Free).(available := s.available[s.workers[w].job.mgr := true],
                             token := s.token[s.workers[w].job.mgr := InChannel])
    case Exit(w) => SetWorker(s, w, WorkerDone)
    case CloseResult => s.(resultClosed := s.resultClosed + 1)
    case CloseAvailable => s.(availableClosed := s.availableClosed + 1)
    case CallNext => s.(inNext := true)
    case SeeEnd => s.(inNext := false, eof := true)
  }

  ghost predicate Reaches(f: File, s: State, ls: seq<Label>, s': State)
    decreases |ls|
  {
    if ls == [] then s == s'
    else Enabled(f, s, ls[0]) && Reaches(f, After(f, s, ls[0]), ls[1..], s')
  }

  /** What next() has returned if it read the file one document after the other. */
  function InOrder(f: File, k: nat): seq<Parsed>
    requires k <= |f.docs|
  {
    seq(k, i requires 0 <= i < k => f.parse(f.docs[i]))
  }
}
