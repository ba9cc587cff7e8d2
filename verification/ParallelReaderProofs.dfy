/** The parallel reader returns the documents in file order, never sends on a closed
    channel, and never gets stuck. */
module ParallelReaderProofs {
  import opened Collections
  import opened ParallelReader

  /** Documents sent to the parsers. */
  function Sent(s: State): int {
    if s.reader.HasDoc? || s.reader.HasToken? then s.pos - 1 else s.pos
  }

  predicate JobFits(f: File, sent: int, j: Job) {
    j.pos < |f.docs| && j.raw == f.docs[j.pos] && f.n > 0 && j.mgr == j.pos % f.n && j.pos < sent
  }

  predicate SizesOk(f: File, s: State) {
    && f.n > 0 && |s.available| == |s.workers| == |s.token| == f.n
    && s.pos <= |f.docs| && s.index < f.n
    && |s.results| <= Sent(s) <= |s.results| + f.n
    && s.index == |s.results| % f.n
  }

  predicate ReaderOk(f: File, s: State) {
    && f.n > 0 && s.pos <= |f.docs|
    && (s.reader.HasDoc? || s.reader.HasToken? ==>
          s.pos > 0 && s.reader.raw == f.docs[s.pos - 1] && s.reader.mgr == (s.pos - 1) % f.n)
    && (s.reader.Reading? || s.reader.HasDoc? || s.reader.HasToken? ==> s.readerIndex == s.pos % f.n)
    && (s.reader.Stopping? || s.reader.Closing? || s.reader.ReaderDone? ==> s.pos == |f.docs|)
    && (s.stop ==> f.breaks && (s.reader.Closing? || s.reader.ReaderDone?))
    && (s.jobsClosed <==> s.reader.ReaderDone?)
    && (s.reader.Stopping? ==> f.breaks)
  }

  /** The token of manager m is where the books say. */
  predicate TokenOk(available: seq<bool>, token: seq<Place>, reader: Reader, workers: seq<Worker>, stop: bool, m: nat) {
    && m < |token| == |available|
    && (available[m] <==> token[m] == InChannel)
    && (match token[m]
        case InChannel => true
        case WithReader => reader.HasToken? && reader.mgr == m
        case WithQueue => true
        case WithWorker(w) => w < |workers| && workers[w].Busy() && workers[w].job.mgr == m
        case Lost => stop)
  }

  ghost predicate TokensOk(available: seq<bool>, token: seq<Place>, reader: Reader, workers: seq<Worker>, stop: bool) {
    && (forall m: nat :: m < |token| ==> TokenOk(available, token, reader, workers, stop, m))
    && (reader.HasToken? ==> reader.mgr < |token| && token[reader.mgr] == WithReader)
  }

  predicate WorkerOk(f: File, x: Worker, w: nat, token: seq<Place>, returned: nat, sent: int) {
    x.Busy() ==>
      && JobFits(f, sent, x.job)
      && x.job.mgr < |token| && token[x.job.mgr] == WithWorker(w)
      && (x.Returning? <==> x.job.pos < returned)
  }

  ghost predicate WorkersOk(f: File, workers: seq<Worker>, token: seq<Place>, returned: nat, sent: int) {
    forall w: nat :: w < |workers| ==> WorkerOk(f, workers[w], w, token, returned, sent)
  }

  predicate QueuedOk(f: File, j: Job, token: seq<Place>, returned: nat, sent: int) {
    JobFits(f, sent, j) && returned <= j.pos && j.mgr < |token| && token[j.mgr] == WithQueue
  }

  ghost predicate QueueOk(f: File, queue: seq<Job>, token: seq<Place>, returned: nat, sent: int) {
    && (forall k: nat :: k < |queue| ==> QueuedOk(f, queue[k], token, returned, sent))
    && (forall k: nat, l: nat :: k < l < |queue| ==> queue[k].mgr != queue[l].mgr)
  }

  ghost predicate TokensQueued(token: seq<Place>, queue: seq<Job>) {
    forall m: nat :: m < |token| && token[m] == WithQueue ==> HasJobOf(queue, m)
  }

  ghost predicate HasJobOf(queue: seq<Job>, m: nat) {
    exists k: nat :: k < |queue| && queue[k].mgr == m
  }

  /** A document sent but not returned is queued, with a worker, or dropped after an error. */
  ghost predicate InFlight(f: File, token: seq<Place>, queue: seq<Job>, workers: seq<Worker>, p: nat) {
    && f.n > 0 && p % f.n < |token|
    && match token[p % f.n]
       case WithQueue => exists k: nat :: k < |queue| && queue[k].pos == p
       case WithWorker(w) => w < |workers| && workers[w].Busy() && workers[w].job.pos == p
       case Lost => true
       case _ => false
  }

  ghost predicate FlightOk(f: File, token: seq<Place>, queue: seq<Job>, workers: seq<Worker>, returned: nat, sent: int) {
    forall p: nat :: returned <= p < sent ==> InFlight(f, token, queue, workers, p)
  }

  predicate DoneOk(s: State) {
    && (forall w <- s.workers :: w.WorkerDone? ==> s.stop || (s.jobsClosed && s.queue == []))
    && s.availableClosed <= s.resultClosed <= |s.workers| && s.resultClosed <= s.availableClosed + 1
    && (s.resultClosed > 0 ==> AllDone(s))
    && (s.eof ==> s.resultClosed > 0 && !s.inNext)
  }

  ghost predicate Inv(f: File, s: State) {
    && SizesOk(f, s) && ReaderOk(f, s) && DoneOk(s)
    && s.results == InOrder(f, |s.results|)
    && TokensOk(s.available, s.token, s.reader, s.workers, s.stop)
    && WorkersOk(f, s.workers, s.token, |s.results|, Sent(s))
    && QueueOk(f, s.queue, s.token, |s.results|, Sent(s)) && TokensQueued(s.token, s.queue)
    && FlightOk(f, s.token, s.queue, s.workers, |s.results|, Sent(s))
  }

  lemma BeginInv(f: File)
    requires f.n > 0
    ensures Inv(f, Begin(f))
  {
    var s := Begin(f);
    assert |s.results| == 0;
    assert s.results == InOrder(f, 0);
  }

  lemma Multiple(d: int, n: nat)
    ensures d >= 1 ==> d * n >= n
    ensures d <= -1 ==> d * n + n <= 0
  {
  }

  lemma ModUnique(p: nat, n: nat, q: nat, r: nat)
    requires n > 0 && r < n && p == q * n + r
    ensures p % n == r
  {
    var d := p / n - q;
    assert p == (p / n) * n + p % n;
    assert d * n == r - p % n;
    Multiple(d, n);
  }

  lemma ModStep(p: nat, n: nat)
    requires n > 0
    ensures p % n < n && Next(p % n, n) == (p + 1) % n
  {
    var q, r := p / n, p % n;
    assert p == q * n + r;
    if r + 1 < n {
      ModUnique(p + 1, n, q, r + 1);
      ModUnique(r + 1, n, 0, r + 1);
    } else {
      assert q * n + n == (q + 1) * n;
      ModUnique(p + 1, n, q + 1, 0);
      ModUnique(r + 1, n, 1, 0);
    }
  }

  /** Among n consecutive numbers no two leave the same remainder. */
  lemma SameRemainder(a: nat, p: nat, n: nat)
    requires n > 0 && a <= p < a + n && p % n == a % n
    ensures p == a
  {
    var d := p / n - a / n;
    assert p == (p / n) * n + p % n && a == (a / n) * n + a % n;
    assert p - a == d * n;
    Multiple(d, n);
  }

  lemma ReadInv(f: File, s: State)
    requires Inv(f, s) && Enabled(f, s, Read)
    ensures Inv(f, After(f, s, Read))
  {
    ModStep(s.pos, f.n);
    var s' := After(f, s, Read);
    forall m: nat | m < |s'.token| ensures TokenOk(s'.available, s'.token, s'.reader, s'.workers, s'.stop, m) {
      assert TokenOk(s.available, s.token, s.reader, s.workers, s.stop, m);
    }
  }

  lemma TakeTokenInv(f: File, s: State)
    requires Inv(f, s) && Enabled(f, s, TakeToken)
    ensures Inv(f, After(f, s, TakeToken))
  {
    var s' := After(f, s, TakeToken);
    var m := s.reader.mgr;
    NoWorkerDone(f, s);
    assert TokenOk(s.available, s.token, s.reader, s.workers, s.stop, m);
    forall k: nat | k < |s'.token| ensures TokenOk(s'.available, s'.token, s'.reader, s'.workers, s'.stop, k) {
      assert TokenOk(s.available, s.token, s.reader, s.workers, s.stop, k);
    }
    TokenTaken(f, s, m, WithReader);
  }

  /** While the reader is at work no channel is closed. */
  lemma NoWorkerDone(f: File, s: State)
    requires Inv(f, s) && (s.reader.Reading? || s.reader.HasDoc? || s.reader.HasToken?)
    ensures s.resultClosed == 0
  {
    assert s.workers[0] in s.workers;
  }

  /** Moving a token that no job has leaves every job where it was. */
  lemma TokenTaken(f: File, s: State, m: nat, to: Place)
    requires Inv(f, s) && m < |s.token| && (s.token[m].InChannel? || s.token[m].WithReader?)
    ensures var token := s.token[m := to];
            && WorkersOk(f, s.workers, token, |s.results|, Sent(s))
            && QueueOk(f, s.queue, token, |s.results|, Sent(s))
            && FlightOk(f, token, s.queue, s.workers, |s.results|, Sent(s))
  {
    var token := s.token[m := to];
    forall w: nat | w < |s.workers| ensures WorkerOk(f, s.workers[w], w, token, |s.results|, Sent(s)) {
      assert WorkerOk(f, s.workers[w], w, s.token, |s.results|, Sent(s));
    }
    forall k: nat | k < |s.queue| ensures QueuedOk(f, s.queue[k], token, |s.results|, Sent(s)) {
      assert QueuedOk(f, s.queue[k], s.token, |s.results|, Sent(s));
    }
    forall p: nat | |s.results| <= p < Sent(s) ensures InFlight(f, token, s.queue, s.workers, p) {
      assert InFlight(f, s.token, s.queue, s.workers, p);
    }
  }

  /** The document n places back has been returned, so the window moves on. */
  lemma WindowMoves(f: File, s: State)
    requires Inv(f, s) && s.reader.HasToken?
    ensures Sent(s) < |s.results| + f.n
  {
    var p := |s.results|;
    ModShift(p, f.n);
    assert p < Sent(s) ==> InFlight(f, s.token, s.queue, s.workers, p);
  }

  lemma ModShift(p: nat, n: nat)
    requires n > 0
    ensures (p + n) % n == p % n
  {
    assert p == (p / n) * n + p % n;
    assert p + n == (p / n + 1) * n + p % n;
    ModUnique(p + n, n, p / n + 1, p % n);
  }

  lemma SendJobInv(f: File, s: State)
    requires Inv(f, s) && Enabled(f, s, SendJob)
    ensures Inv(f, After(f, s, SendJob))
  {
    var s' := After(f, s, SendJob);
    var m := s.reader.mgr;
    WindowMoves(f, s);
    NoWorkerDone(f, s);
    forall k: nat | k < |s'.token| ensures TokenOk(s'.available, s'.token, s'.reader, s'.workers, s'.stop, k) {
      assert TokenOk(s.available, s.token, s.reader, s.workers, s.stop, k);
    }
    forall w: nat | w < |s.workers| ensures WorkerOk(f, s.workers[w], w, s'.token, |s.results|, Sent(s')) {
      assert WorkerOk(f, s.workers[w], w, s.token, |s.results|, Sent(s));
    }
    forall k: nat | k < |s'.queue| ensures QueuedOk(f, s'.queue[k], s'.token, |s.results|, Sent(s')) {
      if k < |s.queue| { assert QueuedOk(f, s.queue[k], s.token, |s.results|, Sent(s)); }
    }
    SendJobFlight(f, s);
    SendQueued(s.token, s.queue, s'.queue[|s.queue|]);
  }

  lemma SendQueued(token: seq<Place>, queue: seq<Job>, j: Job)
    requires TokensQueued(token, queue) && j.mgr < |token|
    ensures TokensQueued(token[j.mgr := WithQueue], queue + [j])
  {
    forall m: nat | m < |token| && token[j.mgr := WithQueue][m] == WithQueue ensures HasJobOf(queue + [j], m) {
      if m == j.mgr {
        assert (queue + [j])[|queue|].mgr == m;
      } else {
        var k: nat :| k < |queue| && queue[k].mgr == m;
        assert (queue + [j])[k].mgr == m;
      }
    }
  }

  lemma ReceiveQueued(token: seq<Place>, queue: seq<Job>, w: nat)
    requires TokensQueued(token, queue) && queue != [] && queue[0].mgr < |token|
    ensures TokensQueued(token[queue[0].mgr := WithWorker(w)], queue[1..])
  {
    var token' := token[queue[0].mgr := WithWorker(w)];
    forall m: nat | m < |token'| && token'[m] == WithQueue ensures HasJobOf(queue[1..], m) {
      var k: nat :| k < |queue| && queue[k].mgr == m;
      assert queue[1..][k - 1].mgr == m;
    }
  }

  lemma SendJobFlight(f: File, s: State)
    requires Inv(f, s) && Enabled(f, s, SendJob)
    ensures var s' := After(f, s, SendJob);
            FlightOk(f, s'.token, s'.queue, s'.workers, |s'.results|, Sent(s'))
  {
    var s' := After(f, s, SendJob);
    forall p: nat | |s.results| <= p < Sent(s') ensures InFlight(f, s'.token, s'.queue, s'.workers, p) {
      if p < Sent(s) {
        assert InFlight(f, s.token, s.queue, s.workers, p);
        if s.token[p % f.n] == WithQueue {
          var k: nat :| k < |s.queue| && s.queue[k].pos == p;
          assert s'.queue[k].pos == p;
        }
      } else {
        assert s'.queue[|s.queue|].pos == p;
      }
    }
  }

  lemma CloseInv(f: File, s: State, l: Label)
    requires Inv(f, s) && Enabled(f, s, l) && (l.CloseStop? || l.CloseJobs?)
    ensures Inv(f, After(f, s, l))
  {
    var s' := After(f, s, l);
    forall m: nat | m < |s'.token| ensures TokenOk(s'.available, s'.token, s'.reader, s'.workers, s'.stop, m) {
      assert TokenOk(s.available, s.token, s.reader, s.workers, s.stop, m);
    }
  }

  lemma ReceiveTokens(f: File, s: State, w: nat)
    requires Inv(f, s) && Enabled(f, s, Receive(w))
    ensures var s' := After(f, s, Receive(w));
            && TokensOk(s'.available, s'.token, s'.reader, s'.workers, s'.stop)
            && WorkersOk(f, s'.workers, s'.token, |s'.results|, Sent(s'))
            && QueueOk(f, s'.queue, s'.token, |s'.results|, Sent(s'))
  {
    var s' := After(f, s, Receive(w));
    var j := s.queue[0];
    assert QueuedOk(f, j, s.token, |s.results|, Sent(s));
    forall m: nat | m < |s'.token| ensures TokenOk(s'.available, s'.token, s'.reader, s'.workers, s'.stop, m) {
      assert TokenOk(s.available, s.token, s.reader, s.workers, s.stop, m);
    }
    forall v: nat | v < |s'.workers| ensures WorkerOk(f, s'.workers[v], v, s'.token, |s.results|, Sent(s)) {
      assert WorkerOk(f, s.workers[v], v, s.token, |s.results|, Sent(s));
    }
    forall k: nat | k < |s'.queue| ensures QueuedOk(f, s'.queue[k], s'.token, |s.results|, Sent(s)) {
      assert QueuedOk(f, s.queue[k + 1], s.token, |s.results|, Sent(s));
    }
  }

  lemma ReceiveInv(f: File, s: State, w: nat)
    requires Inv(f, s) && Enabled(f, s, Receive(w))
    ensures Inv(f, After(f, s, Receive(w)))
  {
    var s' := After(f, s, Receive(w));
    ReceiveTokens(f, s, w);
    forall p: nat | |s.results| <= p < Sent(s) ensures InFlight(f, s'.token, s'.queue, s'.workers, p) {
      assert InFlight(f, s.token, s.queue, s.workers, p);
      if s.token[p % f.n] == WithQueue {
        var k: nat :| k < |s.queue| && s.queue[k].pos == p;
        assert QueuedOk(f, s.queue[k], s.token, |s.results|, Sent(s));
        assert k > 0 ==> s'.queue[k - 1].pos == p;
      }
    }
    ReceiveDone(f, s, w);
    ReceiveQueued(s.token, s.queue, w);
  }

  lemma ReceiveDone(f: File, s: State, w: nat)
    requires Inv(f, s) && Enabled(f, s, Receive(w))
    ensures DoneOk(After(f, s, Receive(w)))
  {
    var s' := After(f, s, Receive(w));
    assert s.workers[w] in s.workers;
    forall x | x in s'.workers && x.WorkerDone? ensures s.stop {
      assert x in s.workers;
    }
  }

  lemma ParseInv(f: File, s: State, w: nat)
    requires Inv(f, s) && Enabled(f, s, Parse(w))
    ensures Inv(f, After(f, s, Parse(w)))
  {
    var s' := After(f, s, Parse(w));
    assert s.workers[w] in s.workers;
    forall m: nat | m < |s'.token| ensures TokenOk(s'.available, s'.token, s'.reader, s'.workers, s'.stop, m) {
      assert TokenOk(s.available, s.token, s.reader, s.workers, s.stop, m);
    }
    forall v: nat | v < |s'.workers| ensures WorkerOk(f, s'.workers[v], v, s'.token, |s.results|, Sent(s)) {
      assert WorkerOk(f, s.workers[v], v, s.token, |s.results|, Sent(s));
    }
    forall p: nat | |s.results| <= p < Sent(s) ensures InFlight(f, s'.token, s'.queue, s'.workers, p) {
      assert InFlight(f, s.token, s.queue, s.workers, p);
    }
    forall x | x in s'.workers && x.WorkerDone? ensures s.stop || (s.jobsClosed && s.queue == []) {
      assert x in s.workers;
    }
  }

  /** The consumer is served by the one worker that has its next document. */
  lemma DeliversNext(f: File, s: State, w: nat)
    requires Inv(f, s) && Enabled(f, s, Deliver(w))
    ensures s.workers[w].job.pos == |s.results| && s.workers[w].job.raw == f.docs[|s.results|]
  {
    assert WorkerOk(f, s.workers[w], w, s.token, |s.results|, Sent(s));
    SameRemainder(|s.results|, s.workers[w].job.pos, f.n);
  }

  lemma DeliverWorkers(f: File, s: State, w: nat)
    requires Inv(f, s) && Enabled(f, s, Deliver(w))
    ensures var s' := After(f, s, Deliver(w));
            && WorkersOk(f, s'.workers, s'.token, |s'.results|, Sent(s'))
            && QueueOk(f, s'.queue, s'.token, |s'.results|, Sent(s'))
  {
    var s' := After(f, s, Deliver(w));
    DeliversNext(f, s, w);
    assert WorkerOk(f, s.workers[w], w, s.token, |s.results|, Sent(s));
    forall v: nat | v < |s'.workers| ensures WorkerOk(f, s'.workers[v], v, s'.token, |s'.results|, Sent(s)) {
      assert WorkerOk(f, s.workers[v], v, s.token, |s.results|, Sent(s));
    }
    forall k: nat | k < |s'.queue| ensures QueuedOk(f, s'.queue[k], s'.token, |s'.results|, Sent(s)) {
      assert QueuedOk(f, s.queue[k], s.token, |s.results|, Sent(s));
    }
  }

  lemma DeliverInv(f: File, s: State, w: nat)
    requires Inv(f, s) && Enabled(f, s, Deliver(w))
    ensures Inv(f, After(f, s, Deliver(w)))
  {
    var s' := After(f, s, Deliver(w));
    DeliversNext(f, s, w);
    DeliverWorkers(f, s, w);
    ModStep(|s.results|, f.n);
    assert s.workers[w] in s.workers;
    assert InOrder(f, |s.results| + 1) == InOrder(f, |s.results|) + [f.parse(f.docs[|s.results|])];
    forall m: nat | m < |s'.token| ensures TokenOk(s'.available, s'.token, s'.reader, s'.workers, s'.stop, m) {
      assert TokenOk(s.available, s.token, s.reader, s.workers, s.stop, m);
    }
    forall p: nat | |s'.results| <= p < Sent(s) ensures InFlight(f, s'.token, s'.queue, s'.workers, p) {
      assert InFlight(f, s.token, s.queue, s.workers, p);
    }
    forall x | x in s'.workers && x.WorkerDone? ensures s.stop || (s.jobsClosed && s.queue == []) {
      assert x in s.workers;
    }
  }

  lemma QuitInv(f: File, s: State, w: nat)
    requires Inv(f, s) && Enabled(f, s, Quit(w))
    ensures Inv(f, After(f, s, Quit(w)))
  {
    var s' := After(f, s, Quit(w));
    assert s.workers[w] in s.workers;
    assert WorkerOk(f, s.workers[w], w, s.token, |s.results|, Sent(s));
    forall m: nat | m < |s'.token| ensures TokenOk(s'.available, s'.token, s'.reader, s'.workers, s'.stop, m) {
      assert TokenOk(s.available, s.token, s.reader, s.workers, s.stop, m);
    }
    forall v: nat | v < |s'.workers| ensures WorkerOk(f, s'.workers[v], v, s'.token, |s.results|, Sent(s)) {
      assert WorkerOk(f, s.workers[v], v, s.token, |s.results|, Sent(s));
    }
    forall k: nat | k < |s'.queue| ensures QueuedOk(f, s'.queue[k], s'.token, |s'.results|, Sent(s)) {
      assert QueuedOk(f, s.queue[k], s.token, |s.results|, Sent(s));
    }
    forall p: nat | |s.results| <= p < Sent(s) ensures InFlight(f, s'.token, s'.queue, s'.workers, p) {
      assert InFlight(f, s.token, s.queue, s.workers, p);
    }
  }

  lemma ReturnTokens(f: File, s: State, w: nat)
    requires Inv(f, s) && Enabled(f, s, Return(w))
    ensures var s' := After(f, s, Return(w)); TokensOk(s'.available, s'.token, s'.reader, s'.workers, s'.stop)
  {
    var s' := After(f, s, Return(w));
    assert WorkerOk(f, s.workers[w], w, s.token, |s.results|, Sent(s));
    forall m: nat | m < |s'.token| ensures TokenOk(s'.available, s'.token, s'.reader, s'.workers, s'.stop, m) {
      assert TokenOk(s.available, s.token, s.reader, s.workers, s.stop, m);
    }
  }

  lemma ReturnWorkers(f: File, s: State, w: nat)
    requires Inv(f, s) && Enabled(f, s, Return(w))
    ensures var s' := After(f, s, Return(w)); WorkersOk(f, s'.workers, s'.token, |s'.results|, Sent(s'))
  {
    var s' := After(f, s, Return(w));
    assert WorkerOk(f, s.workers[w], w, s.token, |s.results|, Sent(s));
    forall v: nat | v < |s'.workers| ensures WorkerOk(f, s'.workers[v], v, s'.token, |s.results|, Sent(s)) {
      assert WorkerOk(f, s.workers[v], v, s.token, |s.results|, Sent(s));
    }
  }

  lemma ReturnQueue(f: File, s: State, w: nat)
    requires Inv(f, s) && Enabled(f, s, Return(w))
    ensures var s' := After(f, s, Return(w)); QueueOk(f, s'.queue, s'.token, |s'.results|, Sent(s'))
  {
    var s' := After(f, s, Return(w));
    assert WorkerOk(f, s.workers[w], w, s.token, |s.results|, Sent(s));
    forall k: nat | k < |s'.queue| ensures QueuedOk(f, s'.queue[k], s'.token, |s'.results|, Sent(s)) {
      assert QueuedOk(f, s.queue[k], s.token, |s.results|, Sent(s));
    }
  }

  lemma ReturnInv(f: File, s: State, w: nat)
    requires Inv(f, s) && Enabled(f, s, Return(w))
    ensures Inv(f, After(f, s, Return(w)))
  {
    var s' := After(f, s, Return(w));
    ReturnTokens(f, s, w);
    ReturnWorkers(f, s, w);
    ReturnQueue(f, s, w);
    assert s.workers[w] in s.workers;
    assert WorkerOk(f, s.workers[w], w, s.token, |s.results|, Sent(s));
    forall p: nat | |s.results| <= p < Sent(s) ensures InFlight(f, s'.token, s'.queue, s'.workers, p) {
      assert InFlight(f, s.token, s.queue, s.workers, p);
    }
    forall x | x in s'.workers && x.WorkerDone? ensures s.stop || (s.jobsClosed && s.queue == []) {
      assert x in s.workers;
    }
  }

  lemma ExitInv(f: File, s: State, w: nat)
    requires Inv(f, s) && Enabled(f, s, Exit(w))
    ensures Inv(f, After(f, s, Exit(w)))
  {
    var s' := After(f, s, Exit(w));
    assert s.workers[w] in s.workers;
    forall m: nat | m < |s'.token| ensures TokenOk(s'.available, s'.token, s'.reader, s'.workers, s'.stop, m) {
      assert TokenOk(s.available, s.token, s.reader, s.workers, s.stop, m);
    }
    forall v: nat | v < |s'.workers| ensures WorkerOk(f, s'.workers[v], v, s'.token, |s.results|, Sent(s)) {
      assert WorkerOk(f, s.workers[v], v, s.token, |s.results|, Sent(s));
    }
    forall p: nat | |s.results| <= p < Sent(s) ensures InFlight(f, s'.token, s'.queue, s'.workers, p) {
      assert InFlight(f, s.token, s.queue, s.workers, p);
    }
  }

  predicate ByWorker(l: Label) {
    l.Receive? || l.Parse? || l.Deliver? || l.Quit? || l.Return? || l.Exit?
  }

  lemma WorkerStepInv(f: File, s: State, l: Label)
    requires Inv(f, s) && Enabled(f, s, l) && ByWorker(l)
    ensures Inv(f, After(f, s, l))
  {
    match l
    case Receive(w) => ReceiveInv(f, s, w);
    case Parse(w) => ParseInv(f, s, w);
    case Deliver(w) => DeliverInv(f, s, w);
    case Quit(w) => QuitInv(f, s, w);
    case Return(w) => ReturnInv(f, s, w);
    case Exit(w) => ExitInv(f, s, w);
  }

  lemma StepInv(f: File, s: State, l: Label)
    requires Inv(f, s) && Enabled(f, s, l)
    ensures Inv(f, After(f, s, l))
  {
    if ByWorker(l) {
      WorkerStepInv(f, s, l);
    } else {
      match l
      case Read => ReadInv(f, s);
      case TakeToken => TakeTokenInv(f, s);
      case SendJob => SendJobInv(f, s);
      case CloseStop => CloseInv(f, s, l);
      case CloseJobs => CloseInv(f, s, l);
      case _ =>
    }
  }

  lemma {:induction false} ReachableInv(f: File, s: State, ls: seq<Label>, s': State)
    requires Inv(f, s) && Reaches(f, s, ls, s')
    ensures Inv(f, s')
    decreases |ls|
  {
    if ls != [] {
      StepInv(f, s, ls[0]);
      ReachableInv(f, After(f, s, ls[0]), ls[1..], s');
    }
  }

  // ---- what follows for every reachable state ----

  /** No goroutine sends on a closed channel, and none closes one twice. */
  lemma NoSendOnClosed(f: File, s: State)
    requires Inv(f, s)
    ensures forall w: nat :: w < f.n && s.workers[w].Busy() ==> s.resultClosed == 0 && s.availableClosed == 0
    ensures s.reader.HasDoc? || s.reader.HasToken? ==> !s.jobsClosed && s.availableClosed == 0
    ensures s.reader.Stopping? ==> !s.stop
    ensures s.reader.Closing? ==> !s.jobsClosed
  {
    forall w: nat | w < f.n && s.workers[w].Busy() ensures s.resultClosed == 0 {
      assert s.workers[w] in s.workers;
    }
    if s.reader.HasDoc? || s.reader.HasToken? { NoWorkerDone(f, s); }
  }

  /** The books that are closed without an error are balanced. */
  lemma AllSentAreReturned(f: File, s: State)
    requires Inv(f, s) && !f.breaks && AllDone(s)
    ensures |s.results| == |f.docs| && s.queue == [] && s.reader.ReaderDone?
  {
    assert s.workers[0] in s.workers;
    assert forall w: nat :: w < |s.workers| ==> s.workers[w] in s.workers;
    var p := |s.results|;
    assert p < Sent(s) ==> InFlight(f, s.token, s.queue, s.workers, p);
    ModStep(p, f.n);
    assert TokenOk(s.available, s.token, s.reader, s.workers, s.stop, p % f.n);
  }

  /** Over every interleaving: what next() has returned is the beginning of the file, in
      order and without repetition; without a read error the end comes after all of it. */
  lemma ReadsInOrder(f: File, ls: seq<Label>, s: State)
    requires f.n > 0 && Reaches(f, Begin(f), ls, s)
    ensures |s.results| <= |f.docs| && forall i: nat :: i < |s.results| ==> s.results[i] == f.parse(f.docs[i])
    ensures s.eof && !f.breaks ==> |s.results| == |f.docs|
  {
    BeginInv(f);
    ReachableInv(f, Begin(f), ls, s);
    if s.eof && !f.breaks { AllSentAreReturned(f, s); }
  }

  predicate ErrorKept(f: File, s: State) {
    s.err <==> f.breaks && (s.reader.Stopping? || s.reader.Closing? || s.reader.ReaderDone?)
  }

  lemma StepKeepsError(f: File, s: State, l: Label)
    requires Enabled(f, s, l) && ErrorKept(f, s)
    ensures ErrorKept(f, After(f, s, l))
  {
  }

  lemma {:induction false} RunKeepsError(f: File, s: State, ls: seq<Label>, s': State)
    requires Reaches(f, s, ls, s') && ErrorKept(f, s)
    ensures ErrorKept(f, s')
    decreases |ls|
  {
    if ls != [] {
      StepKeepsError(f, s, ls[0]);
      RunKeepsError(f, After(f, s, ls[0]), ls[1..], s');
    }
  }

  /** Once the consumer has seen the end, the read error is recorded if there was one. */
  lemma ErrorIsRecorded(f: File, ls: seq<Label>, s: State)
    requires f.n > 0 && Reaches(f, Begin(f), ls, s) && s.eof
    ensures s.err <==> f.breaks
  {
    BeginInv(f);
    ReachableInv(f, Begin(f), ls, s);
    RunKeepsError(f, Begin(f), ls, s);
    assert s.workers[0] in s.workers;
  }

  // ---- never stuck ----

  predicate ByPool(l: Label) {
    !l.CallNext?
  }

  /** A queued job is received, or some worker can move. */
  lemma QueueMoves(f: File, s: State) returns (l: Label)
    requires Inv(f, s) && !s.stop && s.inNext && s.queue != []
    ensures Enabled(f, s, l) && ByPool(l)
  {
    assert QueuedOk(f, s.queue[0], s.token, |s.results|, Sent(s));
    if w: nat :| w < f.n && s.workers[w].Free? {
      l := Receive(w);
    } else if w: nat :| w < f.n && s.workers[w].Parsing? {
      l := Parse(w);
    } else if w: nat :| w < f.n && s.workers[w].Returning? {
      l := ReturnMoves(f, s, w);
    } else {
      l := OneIsWaitedFor(f, s);
    }
  }

  lemma ReturnMoves(f: File, s: State, w: nat) returns (l: Label)
    requires Inv(f, s) && w < f.n && s.workers[w].Returning?
    ensures Enabled(f, s, l) && l == Return(w)
  {
    assert WorkerOk(f, s.workers[w], w, s.token, |s.results|, Sent(s));
    assert TokenOk(s.available, s.token, s.reader, s.workers, s.stop, s.workers[w].job.mgr);
    l := Return(w);
  }

  /** When all n workers hold results, they hold one for each of the n managers. */
  lemma OneIsWaitedFor(f: File, s: State) returns (l: Label)
    requires Inv(f, s) && !s.stop && s.inNext && s.queue != []
    requires forall w: nat :: w < f.n ==> !s.workers[w].Free? && !s.workers[w].Parsing? && !s.workers[w].Returning?
    ensures Enabled(f, s, l) && ByPool(l)
  {
    forall w: nat | w < f.n ensures s.workers[w].Sending? && s.workers[w].job.mgr < f.n
                                    && s.token[s.workers[w].job.mgr] == WithWorker(w) {
      assert s.workers[w] in s.workers;
      assert WorkerOk(f, s.workers[w], w, s.token, |s.results|, Sent(s));
    }
    var mgrs: seq<nat> := seq(f.n, w requires 0 <= w < f.n => s.workers[w].job.mgr);
    forall v: nat, w: nat | v < w < f.n ensures mgrs[v] != mgrs[w] {
      assert s.token[mgrs[v]] == WithWorker(v) && s.token[mgrs[w]] == WithWorker(w);
    }
    Pigeonhole(mgrs, f.n, s.index);
    var w: nat :| w < f.n && mgrs[w] == s.index;
    l := Deliver(w);
  }

  /** With every document sent returned, the reader or the shutdown can move. */
  lemma ReaderMoves(f: File, s: State) returns (l: Label)
    requires Inv(f, s) && !s.stop && s.inNext && s.queue == [] && Sent(s) == |s.results|
    ensures Enabled(f, s, l) && ByPool(l)
  {
    if w: nat :| w < f.n && s.workers[w].Returning? {
      l := ReturnMoves(f, s, w);
    } else {
      forall w: nat | w < f.n ensures s.workers[w].Free? || s.workers[w].WorkerDone? {
        assert WorkerOk(f, s.workers[w], w, s.token, |s.results|, Sent(s));
      }
      match s.reader
      case Reading => l := Read;
      case HasDoc(raw, m) =>
        TokenIsFree(f, s, m);
        assert TokenOk(s.available, s.token, s.reader, s.workers, s.stop, m);
        l := TakeToken;
      case HasToken(raw, m) => l := SendJob;
      case Stopping => l := CloseStop;
      case Closing => l := CloseJobs;
      case ReaderDone => l := ShutdownMoves(f, s);
    }
  }

  lemma TokenIsFree(f: File, s: State, m: nat)
    requires Inv(f, s) && !s.stop && s.queue == [] && Sent(s) == |s.results| && s.reader.HasDoc? && s.reader.mgr == m
    requires forall w: nat :: w < f.n ==> !s.workers[w].Busy()
    ensures m < f.n && s.token[m] == InChannel
  {
    ModStep(s.pos - 1, f.n);
    assert TokenOk(s.available, s.token, s.reader, s.workers, s.stop, m);
  }

  lemma ShutdownMoves(f: File, s: State) returns (l: Label)
    requires Inv(f, s) && s.inNext
    requires forall w: nat :: w < f.n ==> s.workers[w].Free? || s.workers[w].WorkerDone?
    requires (s.queue == [] && s.reader.ReaderDone?) || forall w: nat :: w < f.n ==> s.workers[w].WorkerDone?
    ensures Enabled(f, s, l) && ByPool(l)
  {
    if w: nat :| w < f.n && s.workers[w].Free? {
      l := Exit(w);
    } else if s.index < s.resultClosed {
      l := SeeEnd;
    } else if s.resultClosed == s.availableClosed {
      l := CloseResult;
    } else {
      l := CloseAvailable;
    }
  }

  /** The worker with the next document can move. */
  lemma HolderMoves(f: File, s: State) returns (l: Label)
    requires Inv(f, s) && !s.stop && s.inNext && s.queue == [] && |s.results| < Sent(s)
    ensures Enabled(f, s, l) && ByPool(l)
  {
    var p := |s.results|;
    assert InFlight(f, s.token, s.queue, s.workers, p);
    assert TokenOk(s.available, s.token, s.reader, s.workers, s.stop, p % f.n);
    var w := s.token[p % f.n].w;
    assert WorkerOk(f, s.workers[w], w, s.token, |s.results|, Sent(s));
    l := if s.workers[w].Parsing? then Parse(w) else Deliver(w);
  }

  /** After a read error every worker finds its way out. */
  lemma StoppedMoves(f: File, s: State) returns (l: Label)
    requires Inv(f, s) && s.stop && s.inNext
    ensures Enabled(f, s, l) && ByPool(l)
  {
    if w: nat :| w < f.n && s.workers[w].Parsing? {
      l := Parse(w);
    } else if w: nat :| w < f.n && s.workers[w].Returning? {
      l := ReturnMoves(f, s, w);
    } else if w: nat :| w < f.n && s.workers[w].Sending? {
      assert WorkerOk(f, s.workers[w], w, s.token, |s.results|, Sent(s));
      l := Quit(w);
    } else if w: nat :| w < f.n && s.workers[w].Free? {
      if s.queue != [] {
        assert QueuedOk(f, s.queue[0], s.token, |s.results|, Sent(s));
        l := Receive(w);
      } else if s.jobsClosed {
        l := Exit(w);
      } else {
        l := CloseJobs;
      }
    } else {
      l := ShutdownMoves(f, s);
    }
  }

  /** While the consumer waits in next(), the pool can always move, read error or not. */
  lemma NeverStuck(f: File, s: State) returns (l: Label)
    requires Inv(f, s) && s.inNext
    ensures Enabled(f, s, l) && ByPool(l)
  {
    if s.stop {
      l := StoppedMoves(f, s);
    } else if s.queue != [] {
      l := QueueMoves(f, s);
    } else if |s.results| < Sent(s) {
      l := HolderMoves(f, s);
    } else {
      l := ReaderMoves(f, s);
    }
  }

  // ---- every schedule ends ----

  function ReaderWork(r: Reader): nat {
    match r
    case Reading => 4
    case HasDoc(_, _) => 13
    case HasToken(_, _) => 12
    case Stopping => 2
    case Closing => 1
    case ReaderDone => 0
  }

  function WorkerWork(w: Worker): nat {
    match w
    case Free => 1
    case Parsing(_) => 6
    case Sending(_) => 5
    case Returning(_) => 3
    case WorkerDone => 0
  }

  function Works(ws: seq<Worker>): seq<nat> {
    seq(|ws|, i requires 0 <= i < |ws| => WorkerWork(ws[i]))
  }

  function ConsumerWork(f: File, s: State): int {
    2 * (|f.docs| + 1 - |s.results|) - (if s.eof then 2 else 0) - (if s.inNext then 1 else 0)
  }

  function Left(f: File, s: State): int {
    ReadingWork(f, s) + PoolWork(s) + ClosingWork(f, s) + ConsumerWork(f, s)
  }

  function PoolWork(s: State): nat {
    6 * |s.queue| + Sum(Works(s.workers))
  }

  function ClosingWork(f: File, s: State): int {
    2 * f.n - s.resultClosed - s.availableClosed
  }

  function ReadingWork(f: File, s: State): int {
    10 * (|f.docs| - s.pos) + ReaderWork(s.reader)
  }

  lemma WorkerChanges(ws: seq<Worker>, w: nat, x: Worker)
    requires w < |ws|
    ensures Sum(Works(ws[w := x])) + WorkerWork(ws[w]) == Sum(Works(ws)) + WorkerWork(x)
  {
    SumUpdate(Works(ws), w, WorkerWork(x));
    assert Works(ws)[w := WorkerWork(x)] == Works(ws[w := x]);
  }

  lemma DeliverLeft(f: File, s: State, w: nat)
    requires Enabled(f, s, Deliver(w))
    ensures var s' := After(f, s, Deliver(w));
            PoolWork(s') + ConsumerWork(f, s') < PoolWork(s) + ConsumerWork(f, s)
  {
    WorkerChanges(s.workers, w, Returning(s.workers[w].job));
  }

  lemma PoolLeft(f: File, s: State, l: Label)
    requires Enabled(f, s, l) && ByWorker(l) && !l.Deliver?
    ensures var s' := After(f, s, l);
            PoolWork(s') < PoolWork(s) && ConsumerWork(f, s') == ConsumerWork(f, s)
  {
    WorkerChanges(s.workers, l.w, After(f, s, l).workers[l.w]);
  }

  lemma ReadLeft(f: File, s: State)
    requires Enabled(f, s, Read)
    ensures var s' := AfterRead(f, s);
            ReadingWork(f, s') < ReadingWork(f, s) && s' == s.(readerIndex := s'.readerIndex, reader := s'.reader,
                                                              pos := s'.pos, err := s'.err)
  {
  }

  predicate ByReader(l: Label) {
    l.TakeToken? || l.SendJob? || l.CloseStop? || l.CloseJobs?
  }

  lemma ReaderLeft(f: File, s: State, l: Label)
    requires Enabled(f, s, l) && ByReader(l)
    ensures var s' := After(f, s, l);
            && ReadingWork(f, s') + 6 * |s'.queue| < ReadingWork(f, s) + 6 * |s.queue|
            && s'.workers == s.workers && ConsumerWork(f, s') == ConsumerWork(f, s)
            && ClosingWork(f, s') == ClosingWork(f, s)
  {
  }

  lemma WorkerStepLeft(f: File, s: State, l: Label)
    requires Enabled(f, s, l) && ByWorker(l)
    ensures Left(f, After(f, s, l)) < Left(f, s)
  {
    if l.Deliver? { DeliverLeft(f, s, l.w); } else { PoolLeft(f, s, l); }
  }

  lemma ReaderStepLeft(f: File, s: State, l: Label)
    requires Enabled(f, s, l) && (ByReader(l) || l.Read?)
    ensures Left(f, After(f, s, l)) < Left(f, s)
  {
    if l.Read? { ReadLeft(f, s); } else { ReaderLeft(f, s, l); }
  }

  lemma StepLeft(f: File, s: State, l: Label)
    requires Inv(f, s) && Enabled(f, s, l)
    ensures Left(f, After(f, s, l)) < Left(f, s)
  {
    if ByWorker(l) {
      WorkerStepLeft(f, s, l);
    } else if ByReader(l) || l.Read? {
      ReaderStepLeft(f, s, l);
    }
  }

  lemma {:induction false} RunIsShort(f: File, s: State, ls: seq<Label>, s': State)
    requires Inv(f, s) && Reaches(f, s, ls, s')
    ensures |ls| + Left(f, s') <= Left(f, s)
    decreases |ls|
  {
    if ls != [] {
      StepInv(f, s, ls[0]);
      StepLeft(f, s, ls[0]);
      RunIsShort(f, After(f, s, ls[0]), ls[1..], s');
    }
  }

  lemma LeftIsNatural(f: File, s: State)
    requires Inv(f, s)
    ensures Left(f, s) >= 0
  {
  }

  /** With a consumer that keeps calling next(), every schedule ends, and can only end, with
      the consumer told so; without a read error it has the whole file by then, in order. */
  lemma EveryScheduleEnds(f: File, ls: seq<Label>, s: State)
    requires f.n > 0 && Reaches(f, Begin(f), ls, s)
    ensures |ls| <= Left(f, Begin(f))
    ensures (forall l :: !Enabled(f, s, l)) ==> s.eof && (!f.breaks ==> |s.results| == |f.docs|)
  {
    BeginInv(f);
    ReachableInv(f, Begin(f), ls, s);
    RunIsShort(f, Begin(f), ls, s);
    LeftIsNatural(f, s);
    ReadsInOrder(f, ls, s);
    if s.inNext {
      var l := NeverStuck(f, s);
    } else if !s.eof {
      assert Enabled(f, s, CallNext);
    }
  }
}
