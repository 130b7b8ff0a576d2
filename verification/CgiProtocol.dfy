/** The life of a CGI request from `accept` to its last `close`, for any number of requests served at
    once, with descriptors taken by name: a call reaches the descriptor it was meant for.
    `DescriptorNumbers` says when that is so.

    Every request has a worker thread and, after the fork, a child process; they share two bounded
    pipes. All workers live in one process and so share one descriptor table: a fork copies whatever
    pipe ends and client connections are open at that moment, those of other requests included, and
    nothing is close-on-exec. One move is one system call of one worker or one child; any interleaving is a
    run. After an error of its own a worker closes its client once more, when it has been closed already. */
module CgiProtocol {
  import opened CText
  import opened Relay

  const STATUS_LINE := "HTTP/1.0 200 OK\r\n\r\n"

  datatype Option<T> = None | Some(value: T)

  /** The pipe ends of an exchange, and its connection to the client. */
  datatype End = InR | InW | OutR | OutW | Client

  datatype Fd = Fd(exchange: nat, end: End)

  /** One request: what its socket still delivers behind the header, the number of body bytes to relay,
      and the CGI program's side: what it flushes before it reads, and what it writes after reading its
      body. A refused request is answered with an error before anything else, as for the length -1. */
  datatype Job = Job(sock: string, length: nat, prefix: string, respond: string -> string,
                     inCap: nat, outCap: nat, refused: bool)
  {
    ghost function Body(): string {
      RelayBytes(sock, length)
    }

    ghost function Output(): string {
      prefix + respond(Body())
    }

    /** The worker sends the whole body before it drains and the child flushes its whole prefix
        before it reads, so one of the two must fit the pipe it goes into. */
    predicate Fits() {
      length <= inCap || |prefix| <= outCap
    }

    predicate Valid() {
      inCap >= 1 && outCap >= 1
    }
  }

  /** The worker's program counter, named after the last thing done. */
  datatype Worker =
    | Idle
    | Accepted
    | Start
    | PipedIn
    | PipedBoth
    | Aborting(todo: seq<End>)
    | Failed
    | Forked
    | InRClosed
    | Relaying(count: nat, c: char)
    | Draining
    | SawEof
    | InWClosed
    | Waiting
    | Served
    | Finished

  datatype Child = Unborn | Born | InWShut | Flushing(done: nat) | Reading | Answering(done: nat) | Exited

  datatype Exchange = Exchange(worker: Worker, child: Child, held: set<Fd>, sock: string,
                               inPipe: string, outPipe: string, got: string, client: string)

  /** `fds` is the server's table of pipe ends and connections; `created` and `closes` record its history,
      `closes` counting the calls of `close`. */
  datatype System = System(xs: seq<Exchange>, fds: set<Fd>, created: set<Fd>, closes: multiset<Fd>)

  datatype Move = WorkerMove(i: nat, ok: bool) | ChildMove(i: nat)

  datatype Effect = Effect(x: Exchange, opens: set<Fd>, shuts: set<Fd>)

  /** The next system call of worker `i`; None when it blocks or is over. `ok` is the outcome of
      `pipe` and `fork`. */
  ghost function WorkerNext(job: Job, i: nat, x: Exchange, fds: set<Fd>, eof: bool, ok: bool): Option<Effect> {
    match x.worker
    case Idle => Some(Effect(x.(worker := Accepted), {Fd(i, Client)}, {}))
    case Accepted =>
      if job.refused then Some(Effect(x.(worker := Aborting([Client])), {}, {}))
      else Some(Effect(x.(worker := Start, client := x.client + STATUS_LINE), {}, {}))
    case Start =>
      if ok then Some(Effect(x.(worker := PipedIn), {Fd(i, InR), Fd(i, InW)}, {}))
      else Some(Effect(x.(worker := Aborting([Client])), {}, {}))
    case PipedIn =>
      if ok then Some(Effect(x.(worker := PipedBoth), {Fd(i, OutR), Fd(i, OutW)}, {}))
      else Some(Effect(x.(worker := Aborting([Client, InR, InW])), {}, {}))
    case PipedBoth =>
      if ok then Some(Effect(x.(worker := Forked, child := Born, held := fds), {}, {}))
      else Some(Effect(x.(worker := Aborting([InR, InW, OutR, OutW, Client])), {}, {}))
    case Aborting(todo) =>
      if todo == [] then Some(Effect(x.(worker := Failed), {}, {Fd(i, Client)}))
      else Some(Effect(x.(worker := Aborting(todo[1..])), {}, {Fd(i, todo[0])}))
    case Forked => Some(Effect(x.(worker := InRClosed), {}, {Fd(i, InR)}))
    case InRClosed => Some(Effect(x.(worker := Relaying(0, NUL)), {}, {Fd(i, OutW)}))
    case Relaying(k, c) =>
      if k >= job.length then Some(Effect(x.(worker := Draining), {}, {}))
      else if |x.inPipe| >= job.inCap then None
      else if x.sock == "" then
        Some(Effect(x.(worker := Relaying(k + 1, c), inPipe := x.inPipe + [c]), {}, {}))
      else
        Some(Effect(x.(worker := Relaying(k + 1, x.sock[0]), sock := x.sock[1..], inPipe := x.inPipe + [x.sock[0]]),
                    {}, {}))
    case Draining =>
      if x.outPipe != "" then
        Some(Effect(x.(outPipe := x.outPipe[1..], client := x.client + [x.outPipe[0]]), {}, {}))
      else if eof then Some(Effect(x.(worker := SawEof), {}, {}))
      else None
    case SawEof => Some(Effect(x.(worker := InWClosed), {}, {Fd(i, InW)}))
    case InWClosed => Some(Effect(x.(worker := Waiting), {}, {Fd(i, OutR)}))
    case Waiting => if x.child.Exited? then Some(Effect(x.(worker := Served), {}, {})) else None
    case Served => Some(Effect(x.(worker := Finished), {}, {Fd(i, Client)}))
    case Finished => None
    case Failed => None
  }

  /** The next system call of child `i`: shut the two ends it does not use, flush the prefix, read the
      body, write the answer, exit (which closes everything it holds). */
  ghost function ChildNext(job: Job, i: nat, x: Exchange): Option<Exchange> {
    match x.child
    case Unborn => None
    case Born => Some(x.(child := InWShut, held := x.held - {Fd(i, InW)}))
    case InWShut => Some(x.(child := Flushing(0), held := x.held - {Fd(i, OutR)}))
    case Flushing(k) =>
      if k >= |job.prefix| then Some(x.(child := Reading))
      else if |x.outPipe| >= job.outCap then None
      else Some(x.(child := Flushing(k + 1), outPipe := x.outPipe + [job.prefix[k]]))
    case Reading =>
      if |x.got| >= job.length then Some(x.(child := Answering(0)))
      else if x.inPipe == "" then None
      else Some(x.(got := x.got + [x.inPipe[0]], inPipe := x.inPipe[1..]))
    case Answering(k) =>
      if k >= |job.respond(x.got)| then Some(x.(child := Exited, held := {}))
      else if |x.outPipe| >= job.outCap then None
      else Some(x.(child := Answering(k + 1), outPipe := x.outPipe + [job.respond(x.got)[k]]))
    case Exited => None
  }

  /** A read on the empty output pipe of `i` sees end of file only when no process holds a write end. */
  ghost predicate NoWriter(s: System, i: nat) {
    && Fd(i, OutW) !in s.fds
    && forall j :: 0 <= j < |s.xs| ==> Fd(i, OutW) !in s.xs[j].held
  }

  ghost function Next(jobs: seq<Job>, s: System, m: Move): Option<System>
    requires |s.xs| == |jobs|
  {
    if m.i >= |jobs| then None
    else match m
      case WorkerMove(i, ok) =>
        (match WorkerNext(jobs[i], i, s.xs[i], s.fds, NoWriter(s, i), ok)
         case None => None
         case Some(e) => Some(System(s.xs[i := e.x], s.fds + e.opens - e.shuts, s.created + e.opens,
                                     s.closes + multiset(e.shuts))))
      case ChildMove(i) =>
        (match ChildNext(jobs[i], i, s.xs[i])
         case None => None
         case Some(x) => Some(s.(xs := s.xs[i := x])))
  }

  ghost function Init(jobs: seq<Job>): System {
    System(seq(|jobs|, i requires 0 <= i < |jobs| =>
             Exchange(Idle, Unborn, {}, jobs[i].sock, "", "", "", "")), {}, {}, multiset{})
  }

  /** The state after a sequence of moves, None if one of them was not possible. */
  ghost function Exec(jobs: seq<Job>, moves: seq<Move>): (r: Option<System>)
    ensures r.Some? ==> |r.value.xs| == |jobs|
    decreases |moves|
  {
    if moves == [] then Some(Init(jobs))
    else
      var r := Exec(jobs, moves[..|moves| - 1]);
      if r.None? then None else Next(jobs, r.value, moves[|moves| - 1])
  }

  ghost predicate Terminal(jobs: seq<Job>, s: System)
    requires |s.xs| == |jobs|
  {
    forall m :: Next(jobs, s, m).None?
  }

  // ------------------------------------------------------------- the invariant

  /** What the child has still to write, when `body` is what it is sent. */
  ghost function ToWrite(job: Job, body: string, x: Exchange): string {
    match x.child
    case Unborn => job.prefix + job.respond(body)
    case Born => job.prefix + job.respond(body)
    case InWShut => job.prefix + job.respond(body)
    case Flushing(k) => (if k <= |job.prefix| then job.prefix[k..] else "") + job.respond(body)
    case Reading => job.respond(body)
    case Answering(k) => if k <= |job.respond(x.got)| then job.respond(x.got)[k..] else ""
    case Exited => ""
  }

  predicate BeforeFork(w: Worker) {
    w.Idle? || w.Accepted? || w.Start? || w.PipedIn? || w.PipedBoth? || w.Aborting? || w.Failed?
  }

  predicate AfterRelaying(w: Worker) {
    w.Draining? || AfterEof(w)
  }

  predicate AfterEof(w: Worker) {
    w.SawEof? || w.InWClosed? || w.Waiting? || w.Served? || w.Finished?
  }

  predicate BeforeReading(c: Child) {
    c.Unborn? || c.Born? || c.InWShut? || c.Flushing?
  }

  /** How much of the body has been put on the input pipe. */
  function Sent(job: Job, w: Worker): nat {
    if w.Relaying? then w.count else if AfterRelaying(w) then job.length else 0
  }

  /** Which of its four ends the server has open on behalf of a worker. */
  predicate Holds(w: Worker, e: End) {
    match w
    case Idle => false
    case Accepted => e == Client
    case Start => e == Client
    case PipedIn => e == InR || e == InW || e == Client
    case PipedBoth => true
    case Aborting(todo) => e in todo
    case Failed => false
    case Forked => true
    case InRClosed => e != InR
    case Relaying(_, _) => e == InW || e == OutR || e == Client
    case Draining => e == InW || e == OutR || e == Client
    case SawEof => e == InW || e == OutR || e == Client
    case InWClosed => e == OutR || e == Client
    case Waiting => e == Client
    case Served => e == Client
    case Finished => false
  }

  predicate Distinct(todo: seq<End>) {
    forall a, b :: 0 <= a < b < |todo| ==> todo[a] != todo[b]
  }

  function AllPipeEnds(i: nat): set<Fd> {
    {Fd(i, InR), Fd(i, InW), Fd(i, OutR), Fd(i, OutW)}
  }

  ghost predicate ControlInv(job: Job, i: nat, x: Exchange) {
    && (BeforeFork(x.worker) <==> x.child.Unborn?)
    && (x.child.Unborn? || x.child.Exited? ==> x.held == {})
    && (!x.child.Unborn? && !x.child.Exited? ==> Fd(i, InR) in x.held && Fd(i, OutW) in x.held)
    && (x.child.Born? ==> Fd(i, InW) in x.held)
    && (x.child.Born? || x.child.InWShut? ==> Fd(i, OutR) in x.held)
    && (AfterEof(x.worker) ==> x.child.Exited? && x.outPipe == "")
    && (x.worker.Aborting? ==> Distinct(x.worker.todo))
    && (job.refused ==> x.worker.Idle? || x.worker.Accepted? || x.worker.Aborting? || x.worker.Failed?)
  }

  /** An exchange in which neither the body nor the prefix fits never gets past its first phase. */
  predicate FitInv(job: Job, x: Exchange) {
    job.Fits() || (BeforeReading(x.child) && !AfterRelaying(x.worker))
  }

  ghost predicate InputInv(job: Job, body: string, x: Exchange) {
    && Sent(job, x.worker) <= job.length == |body|
    && x.got + x.inPipe == body[..Sent(job, x.worker)]
    && |x.inPipe| <= job.inCap
    && x.sock == AfterRelay(job.sock, Sent(job, x.worker))
    && (x.worker.Relaying? ==> x.worker.c == Carry(job.sock, x.worker.count))
    && (BeforeReading(x.child) ==> x.got == "")
    && (x.child.Answering? || x.child.Exited? ==> x.got == body)
  }

  /** The status line has been sent. */
  predicate Greeted(job: Job, w: Worker) {
    !w.Idle? && !w.Accepted? && !job.refused
  }

  function Unsent(job: Job, w: Worker): string {
    if Greeted(job, w) then "" else STATUS_LINE
  }

  ghost predicate OutputInv(job: Job, body: string, x: Exchange) {
    && (Greeted(job, x.worker) ==>
          x.client + x.outPipe + ToWrite(job, body, x) == STATUS_LINE + (job.prefix + job.respond(body)))
    && (!Greeted(job, x.worker) ==> x.client == "" && x.outPipe == "" && x.child.Unborn?)
    && |x.outPipe| <= job.outCap
    && (Greeted(job, x.worker) && !AfterRelaying(x.worker) ==> x.client == STATUS_LINE)
    && (x.child.Flushing? ==> x.child.done <= |job.prefix|)
    && (x.child.Answering? ==> x.child.done <= |job.respond(x.got)|)
  }

  ghost predicate LocalInv(job: Job, i: nat, x: Exchange) {
    ControlInv(job, i, x) && FitInv(job, x) && InputInv(job, job.Body(), x) && OutputInv(job, job.Body(), x)
  }

  /** The server's table holds exactly the ends the workers' program counters say, and every end ever
      opened is either still open or was closed exactly once, a connection once more after an error. */
  ghost predicate TableInv(s: System) {
    forall fd: Fd :: TableEntry(s, fd)
  }

  ghost predicate TableEntry(s: System, fd: Fd) {
    && (fd in s.fds ==> fd in s.created)
    && (fd in s.created ==> fd.exchange < |s.xs|)
    && s.closes[fd] == (if fd in s.created && fd !in s.fds then 1 else 0) + (if ClosedAgain(s, fd) then 1 else 0)
    && (fd.exchange < |s.xs| ==>
          var w := s.xs[fd.exchange].worker;
          && (fd in s.fds <==> Holds(w, fd.end))
          && (fd in s.created ==> Created(w, fd.end))
          && (!BeforeFork(w) || (fd.end.Client? && !w.Idle?) ==> fd in s.created))
  }

  /** The connection of a worker that reported an error. */
  ghost predicate ClosedAgain(s: System, fd: Fd) {
    fd.exchange < |s.xs| && fd.end.Client? && s.xs[fd.exchange].worker.Failed?
  }

  predicate Created(w: Worker, e: End) {
    !w.Idle? && (w.Accepted? || w.Start? ==> e == Client) && (w.PipedIn? ==> e == InR || e == InW || e == Client)
  }

  ghost predicate Inv(jobs: seq<Job>, s: System) {
    && |s.xs| == |jobs|
    && (forall i :: 0 <= i < |jobs| ==> LocalInv(jobs[i], i, s.xs[i]))
    && TableInv(s)
  }

  // ------------------------------------------------- every move keeps the invariant

  lemma ForkKeepsControl(job: Job, i: nat, x: Exchange, fds: set<Fd>, eof: bool, ok: bool)
    requires ControlInv(job, i, x) && x.worker.PipedBoth? && AllPipeEnds(i) <= fds
    ensures ControlInv(job, i, WorkerNext(job, i, x, fds, eof, ok).value.x)
  {
  }

  lemma WorkerKeepsControl(job: Job, i: nat, x: Exchange, fds: set<Fd>, eof: bool, ok: bool)
    requires ControlInv(job, i, x)
    requires x.worker.PipedBoth? ==> AllPipeEnds(i) <= fds
    requires eof ==> Fd(i, OutW) !in x.held
    requires WorkerNext(job, i, x, fds, eof, ok).Some?
    ensures ControlInv(job, i, WorkerNext(job, i, x, fds, eof, ok).value.x)
  {
    if x.worker.PipedBoth? {
      ForkKeepsControl(job, i, x, fds, eof, ok);
    }
  }

  lemma WorkerKeepsFit(job: Job, body: string, i: nat, x: Exchange, fds: set<Fd>, eof: bool, ok: bool)
    requires ControlInv(job, i, x) && FitInv(job, x) && InputInv(job, body, x)
    requires WorkerNext(job, i, x, fds, eof, ok).Some?
    ensures FitInv(job, WorkerNext(job, i, x, fds, eof, ok).value.x)
  {
    if x.worker.Relaying? && x.worker.count == job.length {
      assert |x.got + x.inPipe| == job.length;
    }
  }

  /** One recv and one write keep the two halves of the body joined. */
  lemma RelayStep(job: Job, k: nat, c: char, sock: string, got: string, inPipe: string)
    requires k < job.length && got + inPipe == job.Body()[..k]
    requires sock == AfterRelay(job.sock, k) && c == Carry(job.sock, k)
    ensures var c' := if sock == "" then c else sock[0];
            && got + (inPipe + [c']) == job.Body()[..k + 1]
            && (if sock == "" then "" else sock[1..]) == AfterRelay(job.sock, k + 1)
            && c' == Carry(job.sock, k + 1)
  {
    RelayOneMore(job.sock, k);
    assert job.Body()[..k] == RelayBytes(job.sock, k);
    assert job.Body()[..k + 1] == RelayBytes(job.sock, k + 1);
    var c' := if sock == "" then c else sock[0];
    assert got + (inPipe + [c']) == (got + inPipe) + [c'];
  }

  lemma WorkerRelaysInput(job: Job, i: nat, x: Exchange, fds: set<Fd>, eof: bool, ok: bool)
    requires InputInv(job, job.Body(), x)
    requires x.worker.Relaying? && x.worker.count < job.length && WorkerNext(job, i, x, fds, eof, ok).Some?
    ensures InputInv(job, job.Body(), WorkerNext(job, i, x, fds, eof, ok).value.x)
  {
    RelayStep(job, x.worker.count, x.worker.c, x.sock, x.got, x.inPipe);
  }

  /** Outside the relay loop a worker leaves the input side of its exchange alone. */
  lemma WorkerLeavesInput(job: Job, i: nat, x: Exchange, fds: set<Fd>, eof: bool, ok: bool)
    requires x.worker.Relaying? ==> x.worker.count == job.length
    requires WorkerNext(job, i, x, fds, eof, ok).Some?
    ensures var x' := WorkerNext(job, i, x, fds, eof, ok).value.x;
            && x'.got == x.got && x'.inPipe == x.inPipe && x'.sock == x.sock
            && Sent(job, x'.worker) == Sent(job, x.worker)
            && (x'.worker.Relaying? ==> x'.worker.count == 0 && x'.worker.c == NUL)
            && (x'.child == x.child || (x.worker.PipedBoth? && x'.child.Born?))
  {
  }

  lemma SameInput(job: Job, body: string, x: Exchange, x': Exchange)
    requires InputInv(job, body, x)
    requires x'.got == x.got && x'.inPipe == x.inPipe && x'.sock == x.sock
    requires Sent(job, x'.worker) == Sent(job, x.worker)
    requires x'.worker.Relaying? ==> x'.worker.count == 0 && x'.worker.c == NUL
    requires x'.child == x.child || (x.child.Unborn? && x'.child.Born?)
    ensures InputInv(job, body, x')
  {
  }

  lemma WorkerKeepsInput(job: Job, body: string, i: nat, x: Exchange, fds: set<Fd>, eof: bool, ok: bool)
    requires InputInv(job, body, x) && (x.worker.PipedBoth? ==> x.child.Unborn?)
    requires x.worker.Relaying? ==> x.worker.count == job.length
    requires WorkerNext(job, i, x, fds, eof, ok).Some?
    ensures InputInv(job, body, WorkerNext(job, i, x, fds, eof, ok).value.x)
  {
    WorkerLeavesInput(job, i, x, fds, eof, ok);
    SameInput(job, body, x, WorkerNext(job, i, x, fds, eof, ok).value.x);
  }

  /** The status line goes out first. */
  lemma GreetingKeepsOutput(job: Job, body: string, i: nat, x: Exchange, fds: set<Fd>, eof: bool, ok: bool)
    requires OutputInv(job, body, x) && x.worker.Accepted?
    ensures OutputInv(job, body, WorkerNext(job, i, x, fds, eof, ok).value.x)
  {
    assert "" + STATUS_LINE == STATUS_LINE;
    assert STATUS_LINE + "" == STATUS_LINE;
  }

  lemma DrainKeepsOutput(job: Job, body: string, i: nat, x: Exchange, fds: set<Fd>, eof: bool, ok: bool)
    requires OutputInv(job, body, x) && x.worker.Draining? && !job.refused
    requires WorkerNext(job, i, x, fds, eof, ok).Some?
    ensures OutputInv(job, body, WorkerNext(job, i, x, fds, eof, ok).value.x)
  {
    if x.outPipe != "" {
      assert (x.client + [x.outPipe[0]]) + x.outPipe[1..] == x.client + x.outPipe;
    }
  }

  /** Other moves of a worker leave the output side alone. */
  lemma WorkerLeavesOutput(job: Job, i: nat, x: Exchange, fds: set<Fd>, eof: bool, ok: bool)
    requires !x.worker.Accepted? && !x.worker.Draining? && ControlInv(job, i, x)
    requires WorkerNext(job, i, x, fds, eof, ok).Some?
    ensures var x' := WorkerNext(job, i, x, fds, eof, ok).value.x;
            && x'.client == x.client && x'.outPipe == x.outPipe && x'.got == x.got
            && Greeted(job, x'.worker) == Greeted(job, x.worker)
            && (AfterRelaying(x.worker) ==> AfterRelaying(x'.worker))
            && (x'.child == x.child || (x.child.Unborn? && x'.child.Born? && Greeted(job, x.worker)))
  {
  }

  lemma WorkerKeepsOutput(job: Job, body: string, i: nat, x: Exchange, fds: set<Fd>, eof: bool, ok: bool)
    requires OutputInv(job, body, x) && ControlInv(job, i, x)
    requires WorkerNext(job, i, x, fds, eof, ok).Some?
    ensures OutputInv(job, body, WorkerNext(job, i, x, fds, eof, ok).value.x)
  {
    if x.worker.Accepted? {
      GreetingKeepsOutput(job, body, i, x, fds, eof, ok);
    } else if x.worker.Draining? {
      DrainKeepsOutput(job, body, i, x, fds, eof, ok);
    } else {
      WorkerLeavesOutput(job, i, x, fds, eof, ok);
    }
  }

  lemma ChildKeepsControl(job: Job, i: nat, x: Exchange)
    requires ControlInv(job, i, x)
    requires ChildNext(job, i, x).Some?
    ensures ControlInv(job, i, ChildNext(job, i, x).value)
  {
  }

  lemma ChildKeepsFit(job: Job, body: string, i: nat, x: Exchange)
    requires FitInv(job, x) && OutputInv(job, body, x)
    requires ChildNext(job, i, x).Some?
    ensures FitInv(job, ChildNext(job, i, x).value)
  {
    if x.child.Flushing? && x.child.done == |job.prefix| && !AfterRelaying(x.worker) {
      assert ToWrite(job, body, x) == job.respond(body);
      assert |x.client + x.outPipe| == |STATUS_LINE + job.prefix|;
    }
  }

  lemma ChildKeepsInput(job: Job, body: string, i: nat, x: Exchange)
    requires InputInv(job, body, x)
    requires ChildNext(job, i, x).Some?
    ensures InputInv(job, body, ChildNext(job, i, x).value)
  {
    if x.child.Reading? && |x.got| < job.length && x.inPipe != "" {
      assert (x.got + [x.inPipe[0]]) + x.inPipe[1..] == x.got + x.inPipe;
    } else if x.child.Reading? {
      assert x.got == (x.got + x.inPipe)[..|x.got|];
    }
  }

  /** Writing one more byte moves it from what is still to write to the end of the pipe. */
  lemma WriteStep(client: string, outPipe: string, w: string, k: nat, rest: string)
    requires k < |w|
    ensures client + (outPipe + [w[k]]) + (w[k + 1..] + rest) == client + outPipe + (w[k..] + rest)
  {
    assert w[k..] == [w[k]] + w[k + 1..];
  }

  lemma ChildFlushesOutput(job: Job, body: string, i: nat, x: Exchange)
    requires OutputInv(job, body, x)
    requires BeforeReading(x.child) && ChildNext(job, i, x).Some?
    ensures OutputInv(job, body, ChildNext(job, i, x).value)
  {
    match x.child
    case InWShut => assert job.prefix[0..] == job.prefix;
    case Flushing(k) =>
      if k < |job.prefix| {
        WriteStep(x.client, x.outPipe, job.prefix, k, job.respond(body));
      } else {
        assert job.prefix[k..] + job.respond(body) == job.respond(body);
      }
    case _ =>
  }

  lemma ChildAnswersOutput(job: Job, body: string, i: nat, x: Exchange)
    requires OutputInv(job, body, x) && |body| == job.length
    requires x.child.Reading? && |x.got| >= job.length ==> x.got == body
    requires !BeforeReading(x.child) && ChildNext(job, i, x).Some?
    ensures OutputInv(job, body, ChildNext(job, i, x).value)
  {
    var a := job.respond(x.got);
    match x.child
    case Reading => assert a[0..] == a;
    case Answering(k) =>
      if k < |a| {
        WriteStep(x.client, x.outPipe, a, k, "");
        assert a[k..] + "" == a[k..] && a[k + 1..] + "" == a[k + 1..];
      }
    case _ =>
  }

  lemma IsListed(e: End)
    ensures e in [InR, InW, OutR, OutW, Client]
  {
    var todo := [InR, InW, OutR, OutW, Client];
    match e
    case InR => assert todo[0] == InR;
    case InW => assert todo[1] == InW;
    case OutR => assert todo[2] == OutR;
    case OutW => assert todo[3] == OutW;
    case Client => assert todo[4] == Client;
  }

  /** The close at the end of `accept_request`, after an error was reported. */
  predicate SecondClose(w: Worker) {
    w.Aborting? && w.todo == []
  }

  /** A worker's move changes the table as its old and new program counters say: it opens only ends
      never created before and closes only ends that are open, but for the second close of its client. */
  lemma EffectOnTable(job: Job, i: nat, x: Exchange, fds: set<Fd>, eof: bool, ok: bool, fd: Fd)
    requires x.worker.Aborting? ==> Distinct(x.worker.todo)
    requires WorkerNext(job, i, x, fds, eof, ok).Some?
    ensures var e := WorkerNext(job, i, x, fds, eof, ok).value;
            && (fd in e.opens ==> fd.exchange == i && !Created(x.worker, fd.end) && fd !in e.shuts)
            && (fd in e.shuts ==> fd.exchange == i && (Holds(x.worker, fd.end) || (SecondClose(x.worker) && fd.end.Client?)))
            && (fd.exchange == i ==>
                  && (Holds(e.x.worker, fd.end) <==> (Holds(x.worker, fd.end) || fd in e.opens) && fd !in e.shuts)
                  && (Created(x.worker, fd.end) || fd in e.opens ==> Created(e.x.worker, fd.end)))
  {
    match x.worker
    case Aborting(todo) =>
      if todo != [] { assert todo == [todo[0]] + todo[1..]; }
    case Start =>
      var todo := [Client];
      assert todo[0] == Client;
    case PipedIn =>
      var todo := [Client, InR, InW];
      assert todo[0] == Client && todo[1] == InR && todo[2] == InW;
    case PipedBoth =>
      IsListed(fd.end);
    case _ =>
  }

  /** Only the second close of its client makes a worker fail, and it does nothing else. */
  lemma EffectOfFailure(job: Job, i: nat, x: Exchange, fds: set<Fd>, eof: bool, ok: bool)
    requires WorkerNext(job, i, x, fds, eof, ok).Some?
    ensures var e := WorkerNext(job, i, x, fds, eof, ok).value;
            && !x.worker.Failed? && (e.x.worker.Failed? <==> SecondClose(x.worker))
            && (SecondClose(x.worker) ==> e.shuts == {Fd(i, Client)} && e.opens == {})
            && (BeforeFork(e.x.worker) ==> BeforeFork(x.worker))
            && (e.x.worker.Idle? ==> x.worker.Idle?)
  {
  }

  lemma NewEntries(job: Job, i: nat, x: Exchange, fds: set<Fd>, eof: bool, ok: bool, end: End)
    requires WorkerNext(job, i, x, fds, eof, ok).Some?
    ensures var e := WorkerNext(job, i, x, fds, eof, ok).value;
            (if !BeforeFork(e.x.worker) || (end.Client? && !e.x.worker.Idle?)
             then !BeforeFork(x.worker) || (end.Client? && !x.worker.Idle?) || Fd(i, end) in e.opens || x.worker.PipedBoth?
             else true)
  {
  }

  lemma WorkerKeepsEntry(jobs: seq<Job>, s: System, m: Move, fd: Fd)
    requires Inv(jobs, s) && m.WorkerMove? && Next(jobs, s, m).Some?
    ensures TableEntry(Next(jobs, s, m).value, fd)
  {
    var i, s' := m.i, Next(jobs, s, m).value;
    var e := WorkerNext(jobs[i], i, s.xs[i], s.fds, NoWriter(s, i), m.ok).value;
    EffectOnTable(jobs[i], i, s.xs[i], s.fds, NoWriter(s, i), m.ok, fd);
    assert TableEntry(s, fd);
    assert s'.closes[fd] == s.closes[fd] + (if fd in e.shuts then 1 else 0);
    if fd.exchange == i {
      EffectOfFailure(jobs[i], i, s.xs[i], s.fds, NoWriter(s, i), m.ok);
      NewEntries(jobs[i], i, s.xs[i], s.fds, NoWriter(s, i), m.ok, fd.end);
      EntryKept(s, s', e, fd);
    }
  }

  lemma EntryKept(s: System, s': System, e: Effect, fd: Fd)
    requires TableEntry(s, fd) && fd.exchange < |s.xs| == |s'.xs| && s'.xs[fd.exchange].worker == e.x.worker
    requires s'.fds == s.fds + e.opens - e.shuts && s'.created == s.created + e.opens
    requires s'.closes[fd] == s.closes[fd] + (if fd in e.shuts then 1 else 0)
    requires var w, w' := s.xs[fd.exchange].worker, e.x.worker;
             && (fd in e.opens ==> !Created(w, fd.end) && fd !in e.shuts)
             && (fd in e.shuts ==> Holds(w, fd.end) || (SecondClose(w) && fd.end.Client?))
             && (Holds(w', fd.end) <==> (Holds(w, fd.end) || fd in e.opens) && fd !in e.shuts)
             && (Created(w, fd.end) || fd in e.opens ==> Created(w', fd.end))
             && !w.Failed? && (w'.Failed? <==> SecondClose(w))
             && (SecondClose(w) ==> e.shuts == {Fd(fd.exchange, Client)} && e.opens == {})
             && (!BeforeFork(w') || (fd.end.Client? && !w'.Idle?) ==>
                   !BeforeFork(w) || (fd.end.Client? && !w.Idle?) || fd in e.opens || w.PipedBoth?)
    ensures TableEntry(s', fd)
  {
  }

  lemma NextKeepsTable(jobs: seq<Job>, s: System, m: Move)
    requires Inv(jobs, s) && Next(jobs, s, m).Some?
    ensures TableInv(Next(jobs, s, m).value)
  {
    if m.WorkerMove? {
      forall fd: Fd ensures TableEntry(Next(jobs, s, m).value, fd) {
        WorkerKeepsEntry(jobs, s, m, fd);
      }
    } else {
      forall fd: Fd ensures TableEntry(Next(jobs, s, m).value, fd) {
        assert TableEntry(s, fd);
      }
    }
  }

  lemma WorkerKeepsLocal(job: Job, i: nat, x: Exchange, fds: set<Fd>, eof: bool, ok: bool)
    requires LocalInv(job, i, x)
    requires x.worker.PipedBoth? ==> AllPipeEnds(i) <= fds
    requires eof ==> Fd(i, OutW) !in x.held
    requires WorkerNext(job, i, x, fds, eof, ok).Some?
    ensures LocalInv(job, i, WorkerNext(job, i, x, fds, eof, ok).value.x)
  {
    var body := job.Body();
    WorkerKeepsControl(job, i, x, fds, eof, ok);
    WorkerKeepsFit(job, body, i, x, fds, eof, ok);
    WorkerKeepsOutput(job, body, i, x, fds, eof, ok);
    if x.worker.Relaying? && x.worker.count < job.length {
      WorkerRelaysInput(job, i, x, fds, eof, ok);
    } else {
      WorkerKeepsInput(job, body, i, x, fds, eof, ok);
    }
  }

  lemma ChildKeepsLocal(job: Job, i: nat, x: Exchange)
    requires LocalInv(job, i, x) && ChildNext(job, i, x).Some?
    ensures LocalInv(job, i, ChildNext(job, i, x).value)
  {
    var body := job.Body();
    ChildKeepsControl(job, i, x);
    ChildKeepsFit(job, body, i, x);
    ChildKeepsInput(job, body, i, x);
    if BeforeReading(x.child) {
      ChildFlushesOutput(job, body, i, x);
    } else {
      ChildAnswersOutput(job, body, i, x);
    }
  }

  lemma NextKeepsInv(jobs: seq<Job>, s: System, m: Move)
    requires Inv(jobs, s) && Next(jobs, s, m).Some?
    ensures Inv(jobs, Next(jobs, s, m).value)
  {
    NextKeepsTable(jobs, s, m);
    var i := m.i;
    if m.WorkerMove? {
      assert TableEntry(s, Fd(i, InR)) && TableEntry(s, Fd(i, InW)) && TableEntry(s, Fd(i, OutR)) && TableEntry(s, Fd(i, OutW));
      WorkerKeepsLocal(jobs[i], i, s.xs[i], s.fds, NoWriter(s, i), m.ok);
    } else {
      ChildKeepsLocal(jobs[i], i, s.xs[i]);
    }
  }

  lemma InitInv(jobs: seq<Job>)
    ensures Inv(jobs, Init(jobs))
  {
  }

  lemma {:induction false} RunsKeepInv(jobs: seq<Job>, moves: seq<Move>)
    requires Exec(jobs, moves).Some?
    ensures Inv(jobs, Exec(jobs, moves).value)
    decreases |moves|
  {
    if moves == [] {
      InitInv(jobs);
    } else {
      var before := moves[..|moves| - 1];
      RunsKeepInv(jobs, before);
      NextKeepsInv(jobs, Exec(jobs, before).value, moves[|moves| - 1]);
    }
  }

  // ---------------------------------------------------------------- safety

  /** FIFO conservation at every moment of every run: body bytes are with the child, in the pipe or
      still to be relayed; output bytes are with the client, in the pipe or still to be written. */
  lemma {:induction false} Conservation(jobs: seq<Job>, moves: seq<Move>, i: nat)
    requires Exec(jobs, moves).Some? && i < |jobs|
    ensures var job, x := jobs[i], Exec(jobs, moves).value.xs[i];
            && Sent(job, x.worker) <= job.length
            && x.got + x.inPipe + job.Body()[Sent(job, x.worker)..] == job.Body()
            && x.client + Unsent(job, x.worker) + x.outPipe + ToWrite(job, job.Body(), x) == STATUS_LINE + job.Output()
            && |x.inPipe| <= job.inCap && |x.outPipe| <= job.outCap
  {
    RunsKeepInv(jobs, moves);
    var job, x := jobs[i], Exec(jobs, moves).value.xs[i];
    LocalConservation(job, job.Body(), x);
    assert x.client + "" == x.client;
    assert "" + STATUS_LINE + "" == STATUS_LINE;
  }

  lemma LocalConservation(job: Job, body: string, x: Exchange)
    requires InputInv(job, body, x)
    ensures x.got + x.inPipe + body[Sent(job, x.worker)..] == body
  {
  }

  /** A worker past `waitpid` has given its client exactly the status line and the whole output, and
      its child has read exactly the relayed body. */
  lemma {:induction false} FinishedExchange(jobs: seq<Job>, moves: seq<Move>, i: nat)
    requires Exec(jobs, moves).Some? && i < |jobs|
    requires Exec(jobs, moves).value.xs[i].worker.Served? || Exec(jobs, moves).value.xs[i].worker.Finished?
    ensures var x := Exec(jobs, moves).value.xs[i];
            && x.client == STATUS_LINE + jobs[i].Output()
            && x.got == jobs[i].Body()
            && x.child.Exited? && jobs[i].Fits()
  {
    RunsKeepInv(jobs, moves);
  }

  /** Nobody ever writes to a pipe without a reader, and the child never meets a premature end of
      file on its input: the peer that matters still holds the other end. */
  lemma PeersStayConnected(jobs: seq<Job>, moves: seq<Move>, i: nat)
    requires Exec(jobs, moves).Some? && i < |jobs|
    ensures var s := Exec(jobs, moves).value;
            var job, x := jobs[i], s.xs[i];
            && (x.worker.Relaying? && x.worker.count < job.length ==> Fd(i, InR) in x.held)
            && (x.child.Flushing? || x.child.Answering? ==> Fd(i, OutR) in s.fds)
            && (x.child.Reading? && |x.got| < job.length ==> Fd(i, InW) in s.fds)
  {
    RunsKeepInv(jobs, moves);
    var s := Exec(jobs, moves).value;
    assert LocalInv(jobs[i], i, s.xs[i]);
    assert TableEntry(s, Fd(i, OutR)) && TableEntry(s, Fd(i, InW));
  }

  predicate Over(w: Worker) {
    w.Finished? || w.Failed?
  }

  /** Calls of `close` in the server: none for a pipe end after the first; once a worker is over, one for
      each end it created, one for the connection of a worker that got through and two for that of a worker
      that failed. */
  lemma {:induction false} DescriptorDiscipline(jobs: seq<Job>, moves: seq<Move>, fd: Fd)
    requires Exec(jobs, moves).Some? && fd.exchange < |jobs|
    ensures var s := Exec(jobs, moves).value;
            var w := s.xs[fd.exchange].worker;
            && s.closes[fd] <= (if fd.end.Client? then 2 else 1)
            && (Over(w) ==> fd !in s.fds
                            && s.closes[fd] == if fd !in s.created then 0 else if fd.end.Client? && w.Failed? then 2 else 1)
            && (w.Failed? ==> s.closes[Fd(fd.exchange, Client)] == 2)
            && (w.Finished? ==> s.closes[fd] == 1)
  {
    RunsKeepInv(jobs, moves);
    ClosedOnce(Exec(jobs, moves).value, fd);
  }

  lemma ClosedOnce(s: System, fd: Fd)
    requires TableInv(s) && fd.exchange < |s.xs|
    ensures var w := s.xs[fd.exchange].worker;
            && s.closes[fd] <= (if fd.end.Client? then 2 else 1)
            && (Over(w) ==> fd !in s.fds
                            && s.closes[fd] == if fd !in s.created then 0 else if fd.end.Client? && w.Failed? then 2 else 1)
            && (w.Failed? ==> s.closes[Fd(fd.exchange, Client)] == 2)
            && (w.Finished? ==> s.closes[fd] == 1)
  {
    assert TableEntry(s, fd);
    assert TableEntry(s, Fd(fd.exchange, Client));
  }

  // ---------------------------------------------------------- every run is finite

  function WorkerRank(w: Worker): nat {
    match w
    case Idle => 14
    case Accepted => 13
    case Start => 12
    case PipedIn => 11
    case PipedBoth => 10
    case Aborting(todo) => |todo| + 1
    case Failed => 0
    case Forked => 9
    case InRClosed => 8
    case Relaying(_, _) => 7
    case Draining => 6
    case SawEof => 5
    case InWClosed => 4
    case Waiting => 3
    case Served => 2
    case Finished => 1
  }

  function ChildRank(c: Child): nat {
    match c
    case Unborn => 6
    case Born => 5
    case InWShut => 4
    case Flushing(_) => 3
    case Reading => 2
    case Answering(_) => 1
    case Exited => 0
  }

  /** An upper bound on the system calls one exchange has still to make. */
  ghost function Rank(job: Job, body: string, x: Exchange): int {
    WorkerPart(job, x.worker, |STATUS_LINE| + |job.prefix| + |job.respond(body)| - |x.client|)
    + ChildPart(job, body, x)
  }

  function WorkerPart(job: Job, w: Worker, toDrain: int): int {
    WorkerRank(w) + (job.length - Sent(job, w)) + toDrain
  }

  ghost function ChildPart(job: Job, body: string, x: Exchange): int {
    ChildRank(x.child) + |ToWrite(job, body, x)| + (job.length - |x.got|)
  }

  lemma RankIsNat(job: Job, i: nat, x: Exchange)
    requires LocalInv(job, i, x)
    ensures Rank(job, job.Body(), x) >= 0
  {
    var body := job.Body();
    assert Greeted(job, x.worker) ==>
             |x.client + x.outPipe + ToWrite(job, body, x)| == |STATUS_LINE + (job.prefix + job.respond(body))|;
    assert |x.got + x.inPipe| == Sent(job, x.worker);
  }

  lemma WorkerKeepsChildPart(job: Job, body: string, i: nat, x: Exchange, fds: set<Fd>, eof: bool, ok: bool)
    requires x.worker.PipedBoth? ==> x.child.Unborn?
    requires WorkerNext(job, i, x, fds, eof, ok).Some?
    ensures ChildPart(job, body, WorkerNext(job, i, x, fds, eof, ok).value.x) <= ChildPart(job, body, x)
  {
  }

  lemma WorkerPartDrops(job: Job, i: nat, x: Exchange, fds: set<Fd>, eof: bool, ok: bool, d: int)
    requires Sent(job, x.worker) <= job.length
    requires WorkerNext(job, i, x, fds, eof, ok).Some?
    ensures var x' := WorkerNext(job, i, x, fds, eof, ok).value.x;
            WorkerPart(job, x'.worker, d - |x'.client|) < WorkerPart(job, x.worker, d - |x.client|)
  {
  }

  lemma ChildRankDrops(job: Job, body: string, i: nat, x: Exchange)
    requires InputInv(job, body, x) && OutputInv(job, body, x)
    requires ChildNext(job, i, x).Some?
    ensures Rank(job, body, ChildNext(job, i, x).value) < Rank(job, body, x)
  {
    if x.child.Reading? && |x.got| == job.length {
      assert x.got == (x.got + x.inPipe)[..|x.got|] == body;
    }
  }

  ghost function Total(jobs: seq<Job>, xs: seq<Exchange>): int
    requires |xs| == |jobs|
  {
    if jobs == [] then 0
    else Rank(jobs[0], jobs[0].Body(), xs[0]) + Total(jobs[1..], xs[1..])
  }

  lemma {:induction false} TotalUpdate(jobs: seq<Job>, xs: seq<Exchange>, i: nat, x: Exchange)
    requires |xs| == |jobs| && i < |jobs|
    ensures Total(jobs, xs[i := x])
            == Total(jobs, xs) - Rank(jobs[i], jobs[i].Body(), xs[i]) + Rank(jobs[i], jobs[i].Body(), x)
  {
    if i == 0 {
      assert xs[0 := x][1..] == xs[1..];
    } else {
      assert xs[i := x][1..] == xs[1..][i - 1 := x];
      TotalUpdate(jobs[1..], xs[1..], i - 1, x);
    }
  }

  lemma {:induction false} TotalIsNat(jobs: seq<Job>, xs: seq<Exchange>)
    requires |xs| == |jobs|
    requires forall i :: 0 <= i < |jobs| ==> Rank(jobs[i], jobs[i].Body(), xs[i]) >= 0
    ensures Total(jobs, xs) >= 0
  {
    if jobs != [] {
      assert Rank(jobs[0], jobs[0].Body(), xs[0]) >= 0;
      forall i | 0 <= i < |jobs[1..]|
        ensures Rank(jobs[1..][i], jobs[1..][i].Body(), xs[1..][i]) >= 0
      {
        assert jobs[1..][i] == jobs[i + 1] && xs[1..][i] == xs[i + 1];
      }
      TotalIsNat(jobs[1..], xs[1..]);
    }
  }

  lemma NextDropsTotal(jobs: seq<Job>, s: System, m: Move)
    requires Inv(jobs, s) && Next(jobs, s, m).Some?
    ensures Total(jobs, Next(jobs, s, m).value.xs) < Total(jobs, s.xs)
  {
    var i, s' := m.i, Next(jobs, s, m).value;
    var job, x := jobs[i], s.xs[i];
    TotalUpdate(jobs, s.xs, i, s'.xs[i]);
    if m.WorkerMove? {
      WorkerKeepsChildPart(job, job.Body(), i, x, s.fds, NoWriter(s, i), m.ok);
      WorkerPartDrops(job, i, x, s.fds, NoWriter(s, i), m.ok,
                      |STATUS_LINE| + |job.prefix| + |job.respond(job.Body())|);
    } else {
      ChildRankDrops(job, job.Body(), i, x);
    }
  }

  /** No run makes more moves than the initial rank, so every run can be extended to a maximal one
      and none goes on for ever. */
  lemma {:induction false} RunsAreFinite(jobs: seq<Job>, moves: seq<Move>)
    requires Exec(jobs, moves).Some?
    ensures |moves| + Total(jobs, Exec(jobs, moves).value.xs) <= Total(jobs, Init(jobs).xs)
    ensures |moves| <= Total(jobs, Init(jobs).xs)
    decreases |moves|
  {
    RunsKeepInv(jobs, moves);
    var s := Exec(jobs, moves).value;
    forall i | 0 <= i < |jobs|
      ensures Rank(jobs[i], jobs[i].Body(), s.xs[i]) >= 0
    {
      RankIsNat(jobs[i], i, s.xs[i]);
    }
    TotalIsNat(jobs, s.xs);
    if moves != [] {
      var before := moves[..|moves| - 1];
      RunsAreFinite(jobs, before);
      RunsKeepInv(jobs, before);
      NextDropsTotal(jobs, Exec(jobs, before).value, moves[|moves| - 1]);
    }
  }

  // --------------------------------------------------- where maximal runs end

  /** A child that cannot move is over, unless its exchange does not fit; then worker and child wait
      for each other, each in front of a full pipe. */
  lemma BlockedChild(job: Job, i: nat, x: Exchange, fds: set<Fd>, eof: bool)
    requires job.Valid() && LocalInv(job, i, x)
    requires ChildNext(job, i, x).None? && WorkerNext(job, i, x, fds, eof, true).None?
    ensures x.child.Unborn? ==> x.worker.Failed?
    ensures !x.child.Unborn? && job.Fits() ==> x.child.Exited?
    ensures !x.child.Unborn? && !job.Fits() ==>
              && x.child.Flushing? && |x.outPipe| == job.outCap
              && x.worker.Relaying? && |x.inPipe| == job.inCap
  {
    if x.child.Flushing? {
      var body := job.Body();
      assert |job.prefix[x.child.done..]| == |job.prefix| - x.child.done;
      assert |x.client + x.outPipe + ToWrite(job, body, x)| == |STATUS_LINE + (job.prefix + job.respond(body))|;
    }
    if !x.child.Unborn? {
      assert |x.got + x.inPipe| == Sent(job, x.worker);
    }
  }

  lemma NobodyWrites(jobs: seq<Job>, s: System, i: nat)
    requires Inv(jobs, s) && i < |jobs| && !Holds(s.xs[i].worker, OutW)
    requires forall j :: 0 <= j < |jobs| ==> s.xs[j].held == {}
    ensures NoWriter(s, i)
  {
    assert TableEntry(s, Fd(i, OutW));
  }

  /** With its child and everybody else's gone, a worker that cannot move is over. */
  lemma BlockedWorker(jobs: seq<Job>, s: System, i: nat)
    requires Inv(jobs, s) && i < |jobs| && jobs[i].Valid()
    requires forall j :: 0 <= j < |jobs| ==> s.xs[j].held == {}
    requires s.xs[i].child.Unborn? || s.xs[i].child.Exited?
    requires WorkerNext(jobs[i], i, s.xs[i], s.fds, NoWriter(s, i), true).None?
    ensures Over(s.xs[i].worker)
  {
    var x := s.xs[i];
    assert |x.got + x.inPipe| == Sent(jobs[i], x.worker);
    if !Holds(x.worker, OutW) {
      NobodyWrites(jobs, s, i);
    }
  }

  lemma TerminalMoves(jobs: seq<Job>, s: System, i: nat)
    requires |s.xs| == |jobs| && Terminal(jobs, s) && i < |jobs|
    ensures ChildNext(jobs[i], i, s.xs[i]).None?
    ensures WorkerNext(jobs[i], i, s.xs[i], s.fds, NoWriter(s, i), true).None?
  {
    assert Next(jobs, s, ChildMove(i)).None?;
    assert Next(jobs, s, WorkerMove(i, true)).None?;
  }

  /** However many requests run at once and whatever their children inherit from each other: a
      maximal run ends with every worker over if and only if each exchange that was forked has a body
      that fits its input pipe or a prefix that fits its output pipe. There is no other deadlock. */
  lemma {:induction false} MaximalRuns(jobs: seq<Job>, moves: seq<Move>)
    requires forall i :: 0 <= i < |jobs| ==> jobs[i].Valid()
    requires Exec(jobs, moves).Some? && Terminal(jobs, Exec(jobs, moves).value)
    ensures var s := Exec(jobs, moves).value;
            (forall i :: 0 <= i < |jobs| ==> Over(s.xs[i].worker))
            <==> (forall i :: 0 <= i < |jobs| ==> s.xs[i].child.Unborn? || jobs[i].Fits())
  {
    RunsKeepInv(jobs, moves);
    var s := Exec(jobs, moves).value;
    forall i | 0 <= i < |jobs|
      ensures s.xs[i].child.Unborn? || jobs[i].Fits() ==> s.xs[i].held == {} && (s.xs[i].child.Unborn? || s.xs[i].child.Exited?)
      ensures Over(s.xs[i].worker) ==> s.xs[i].child.Unborn? || jobs[i].Fits()
    {
      TerminalMoves(jobs, s, i);
      BlockedChild(jobs[i], i, s.xs[i], s.fds, NoWriter(s, i));
    }
    if forall i :: 0 <= i < |jobs| ==> s.xs[i].child.Unborn? || jobs[i].Fits() {
      forall i | 0 <= i < |jobs|
        ensures Over(s.xs[i].worker)
      {
        TerminalMoves(jobs, s, i);
        BlockedWorker(jobs, s, i);
      }
    }
  }

  /** Once a drain loop has seen end of file, no process can write to its pipe any more, and no child
      forked later inherits a write end. */
  lemma {:induction false} EofIsFinal(jobs: seq<Job>, moves: seq<Move>, i: nat, j: nat)
    requires Exec(jobs, moves).Some? && i < |jobs| && j < |jobs|
    ensures AfterEof(Exec(jobs, moves).value.xs[j].worker) ==> Fd(j, OutW) !in Exec(jobs, moves).value.xs[i].held
    decreases |moves|
  {
    if moves != [] {
      var before, m := moves[..|moves| - 1], moves[|moves| - 1];
      EofIsFinal(jobs, before, i, j);
      RunsKeepInv(jobs, before);
      EofStays(jobs, Exec(jobs, before).value, m, i, j);
    }
  }

  lemma EofStays(jobs: seq<Job>, s: System, m: Move, i: nat, j: nat)
    requires Inv(jobs, s) && Next(jobs, s, m).Some? && i < |jobs| && j < |jobs|
    requires AfterEof(s.xs[j].worker) ==> Fd(j, OutW) !in s.xs[i].held
    ensures var s' := Next(jobs, s, m).value; AfterEof(s'.xs[j].worker) ==> Fd(j, OutW) !in s'.xs[i].held
  {
    if m.WorkerMove? {
      EofStaysInTable(s, j);
      WorkerHeld(jobs[m.i], m.i, s.xs[m.i], s.fds, NoWriter(s, m.i), m.ok);
      EofStaysBecause(s, Next(jobs, s, m).value, m.i, i, j);
    } else {
      ChildHeld(jobs[m.i], m.i, s.xs[m.i]);
    }
  }

  lemma EofStaysInTable(s: System, j: nat)
    requires TableInv(s) && j < |s.xs|
    ensures AfterEof(s.xs[j].worker) ==> Fd(j, OutW) !in s.fds
  {
    assert TableEntry(s, Fd(j, OutW));
  }

  lemma EofStaysBecause(s: System, s': System, k: nat, i: nat, j: nat)
    requires |s'.xs| == |s.xs| && i < |s.xs| && j < |s.xs| && k < |s.xs|
    requires forall n :: 0 <= n < |s.xs| && n != k ==> s'.xs[n] == s.xs[n]
    requires s'.xs[k].held == s.xs[k].held || (s'.xs[k].held == s.fds && !AfterEof(s'.xs[k].worker))
    requires AfterEof(s'.xs[k].worker) ==> AfterEof(s.xs[k].worker) || NoWriter(s, k)
    requires AfterEof(s.xs[j].worker) ==> Fd(j, OutW) !in s.xs[i].held && Fd(j, OutW) !in s.fds
    ensures AfterEof(s'.xs[j].worker) ==> Fd(j, OutW) !in s'.xs[i].held
  {
  }

  lemma WorkerHeld(job: Job, i: nat, x: Exchange, fds: set<Fd>, eof: bool, ok: bool)
    requires WorkerNext(job, i, x, fds, eof, ok).Some?
    ensures var x' := WorkerNext(job, i, x, fds, eof, ok).value.x;
            && (x'.held == x.held || (x'.held == fds && !AfterEof(x'.worker)))
            && (AfterEof(x'.worker) ==> AfterEof(x.worker) || eof)
  {
  }

  lemma ChildHeld(job: Job, i: nat, x: Exchange)
    requires ChildNext(job, i, x).Some?
    ensures var x' := ChildNext(job, i, x).value; x'.held <= x.held && x'.worker == x.worker
  {
  }

  /** Who gets through when some exchange does not fit: in every maximal run, a worker that forked
      finishes if and only if its own exchange fits and no child of an exchange that does not fit has
      inherited the write end of its output pipe. */
  lemma {:induction false} WhoFinishes(jobs: seq<Job>, moves: seq<Move>, j: nat)
    requires forall i :: 0 <= i < |jobs| ==> jobs[i].Valid()
    requires Exec(jobs, moves).Some? && Terminal(jobs, Exec(jobs, moves).value)
    requires j < |jobs| && !Exec(jobs, moves).value.xs[j].child.Unborn?
    ensures var s := Exec(jobs, moves).value;
            s.xs[j].worker.Finished?
            <==> jobs[j].Fits()
                 && forall i :: 0 <= i < |jobs| && !jobs[i].Fits() ==> Fd(j, OutW) !in s.xs[i].held
  {
    RunsKeepInv(jobs, moves);
    var s := Exec(jobs, moves).value;
    forall i | 0 <= i < |jobs|
      ensures s.xs[i].child.Unborn? || jobs[i].Fits() ==> s.xs[i].held == {}
      ensures s.xs[j].worker.Finished? ==> Fd(j, OutW) !in s.xs[i].held
    {
      TerminalMoves(jobs, s, i);
      BlockedChild(jobs[i], i, s.xs[i], s.fds, NoWriter(s, i));
      EofIsFinal(jobs, moves, i, j);
    }
    TerminalMoves(jobs, s, j);
    BlockedChild(jobs[j], j, s.xs[j], s.fds, NoWriter(s, j));
    if jobs[j].Fits() && forall i :: 0 <= i < |jobs| && !jobs[i].Fits() ==> Fd(j, OutW) !in s.xs[i].held {
      FreeWorker(jobs, s, j);
    }
  }

  /** With its child gone and nobody holding the write end of its output pipe, a forked worker that
      cannot move has finished. */
  lemma FreeWorker(jobs: seq<Job>, s: System, j: nat)
    requires Inv(jobs, s) && j < |jobs| && jobs[j].Valid() && s.xs[j].child.Exited?
    requires forall i :: 0 <= i < |jobs| ==> Fd(j, OutW) !in s.xs[i].held
    requires WorkerNext(jobs[j], j, s.xs[j], s.fds, NoWriter(s, j), true).None?
    ensures s.xs[j].worker.Finished?
  {
    var x := s.xs[j];
    assert |x.got + x.inPipe| == Sent(jobs[j], x.worker);
    assert TableEntry(s, Fd(j, OutW));
    assert !Holds(x.worker, OutW) ==> NoWriter(s, j);
  }

  /** The peer of a connection sees its end when neither the server nor any child has it open. */
  ghost predicate EndSeen(s: System, i: nat) {
    && Fd(i, Client) in s.created && Fd(i, Client) !in s.fds
    && forall j :: 0 <= j < |s.xs| ==> Fd(i, Client) !in s.xs[j].held
  }

  /** Whose clients see the end of their response: in every maximal run, exactly those whose worker is
      over and whose connection was inherited by no child of an exchange that does not fit. */
  lemma {:induction false} WhoSeesTheEnd(jobs: seq<Job>, moves: seq<Move>, j: nat)
    requires forall i :: 0 <= i < |jobs| ==> jobs[i].Valid()
    requires Exec(jobs, moves).Some? && Terminal(jobs, Exec(jobs, moves).value) && j < |jobs|
    ensures var s := Exec(jobs, moves).value;
            EndSeen(s, j) <==> Over(s.xs[j].worker)
                               && forall i :: 0 <= i < |jobs| && !jobs[i].Fits() ==> Fd(j, Client) !in s.xs[i].held
  {
    RunsKeepInv(jobs, moves);
    var s := Exec(jobs, moves).value;
    forall i | 0 <= i < |jobs|
      ensures s.xs[i].child.Unborn? || jobs[i].Fits() ==> s.xs[i].held == {}
    {
      TerminalMoves(jobs, s, i);
      BlockedChild(jobs[i], i, s.xs[i], s.fds, NoWriter(s, i));
    }
    assert TableEntry(s, Fd(j, Client));
    TerminalMoves(jobs, s, j);
    ConnectionHeld(s, j);
  }

  lemma ConnectionHeld(s: System, j: nat)
    requires j < |s.xs| && TableEntry(s, Fd(j, Client)) && !s.xs[j].worker.Idle?
    ensures Fd(j, Client) !in s.fds ==> Fd(j, Client) in s.created
    ensures Over(s.xs[j].worker) ==> Fd(j, Client) !in s.fds
    ensures !Over(s.xs[j].worker) && !s.xs[j].worker.Aborting? ==> Fd(j, Client) in s.fds
  {
  }

  /** The end is final: no later fork gives anyone the connection back. */
  lemma EndStaysSeen(jobs: seq<Job>, s: System, m: Move, i: nat)
    requires Inv(jobs, s) && i < |jobs| && EndSeen(s, i) && Next(jobs, s, m).Some?
    ensures EndSeen(Next(jobs, s, m).value, i)
  {
    var s' := Next(jobs, s, m).value;
    if m.WorkerMove? {
      EffectOnTable(jobs[m.i], m.i, s.xs[m.i], s.fds, NoWriter(s, m.i), m.ok, Fd(i, Client));
      WorkerHeld(jobs[m.i], m.i, s.xs[m.i], s.fds, NoWriter(s, m.i), m.ok);
      assert TableEntry(s, Fd(i, Client));
    } else {
      ChildHeld(jobs[m.i], m.i, s.xs[m.i]);
    }
  }

  predicate Unfailing(w: Worker) {
    !w.Aborting? && !w.Failed?
  }

  lemma OkMoveKeepsUnfailing(job: Job, i: nat, x: Exchange, fds: set<Fd>, eof: bool)
    requires !job.refused && Unfailing(x.worker) && WorkerNext(job, i, x, fds, eof, true).Some?
    ensures Unfailing(WorkerNext(job, i, x, fds, eof, true).value.x.worker)
  {
  }

  lemma {:induction false} NoFailedCalls(jobs: seq<Job>, moves: seq<Move>, i: nat)
    requires Exec(jobs, moves).Some? && i < |jobs| && !jobs[i].refused
    requires forall k :: 0 <= k < |moves| && moves[k].WorkerMove? ==> moves[k].ok
    ensures Unfailing(Exec(jobs, moves).value.xs[i].worker)
    decreases |moves|
  {
    if moves != [] {
      var before, m := moves[..|moves| - 1], moves[|moves| - 1];
      NoFailedCalls(jobs, before, i);
      var s := Exec(jobs, before).value;
      if m == WorkerMove(i, true) {
        OkMoveKeepsUnfailing(jobs[i], i, s.xs[i], s.fds, NoWriter(s, i));
      } else if m.ChildMove? && m.i == i {
        assert Next(jobs, s, m).value.xs[i].worker == s.xs[i].worker;
      }
    }
  }

  /** When every exchange fits, none is refused and every `pipe` and `fork` succeeds, every maximal run serves every
      client completely, up to the end of its connection, and leaves nothing open in the server. */
  lemma {:induction false} EveryoneIsServed(jobs: seq<Job>, moves: seq<Move>)
    requires forall i :: 0 <= i < |jobs| ==> jobs[i].Valid() && jobs[i].Fits() && !jobs[i].refused
    requires forall k :: 0 <= k < |moves| && moves[k].WorkerMove? ==> moves[k].ok
    requires Exec(jobs, moves).Some? && Terminal(jobs, Exec(jobs, moves).value)
    ensures var s := Exec(jobs, moves).value;
            && s.fds == {}
            && forall i :: 0 <= i < |jobs| ==>
                 && s.xs[i].worker.Finished? && EndSeen(s, i)
                 && s.xs[i].client == STATUS_LINE + jobs[i].Output() && s.xs[i].got == jobs[i].Body()
  {
    RunsKeepInv(jobs, moves);
    MaximalRuns(jobs, moves);
    var s := Exec(jobs, moves).value;
    forall i | 0 <= i < |jobs|
      ensures s.xs[i].worker.Finished? && s.xs[i].client == STATUS_LINE + jobs[i].Output() && s.xs[i].got == jobs[i].Body()
      ensures EndSeen(s, i)
    {
      assert Over(s.xs[i].worker);
      WhoSeesTheEnd(jobs, moves, i);
      NoFailedCalls(jobs, moves, i);
      FinishedExchange(jobs, moves, i);
    }
    forall fd ensures fd !in s.fds {
      assert TableEntry(s, fd);
    }
  }

  /** Every run can be continued to a maximal one. */
  lemma {:induction false} RunsExtend(jobs: seq<Job>, moves: seq<Move>) returns (more: seq<Move>)
    requires Exec(jobs, moves).Some?
    ensures moves <= more && Exec(jobs, more).Some? && Terminal(jobs, Exec(jobs, more).value)
    decreases Total(jobs, Init(jobs).xs) - |moves|
  {
    var s := Exec(jobs, moves).value;
    if Terminal(jobs, s) {
      more := moves;
    } else {
      var m :| Next(jobs, s, m).Some?;
      assert (moves + [m])[..|moves|] == moves;
      RunsAreFinite(jobs, moves + [m]);
      more := RunsExtend(jobs, moves + [m]);
    }
  }

  /** How an exchange that does not fit ends: in every maximal run its worker is stuck writing the
      body into a full pipe and its child is stuck flushing its prefix into another. */
  lemma {:induction false} UnfitExchangeGetsStuck(jobs: seq<Job>, moves: seq<Move>, i: nat)
    requires i < |jobs| && jobs[i].Valid() && !jobs[i].Fits()
    requires Exec(jobs, moves).Some? && Terminal(jobs, Exec(jobs, moves).value)
    requires !Exec(jobs, moves).value.xs[i].child.Unborn?
    ensures var x := Exec(jobs, moves).value.xs[i];
            && x.worker.Relaying? && |x.inPipe| == jobs[i].inCap
            && x.child.Flushing? && |x.outPipe| == jobs[i].outCap
  {
    RunsKeepInv(jobs, moves);
    var s := Exec(jobs, moves).value;
    TerminalMoves(jobs, s, i);
    BlockedChild(jobs[i], i, s.xs[i], s.fds, NoWriter(s, i));
  }

  /** One request alone, with `pipe` and `fork` succeeding: every maximal run delivers the whole
      exchange if it fits, and no run does if it does not. */
  lemma {:induction false} SingleExchange(job: Job, moves: seq<Move>)
    requires job.Valid()
    requires Exec([job], moves).Some? && Terminal([job], Exec([job], moves).value)
    requires !Exec([job], moves).value.xs[0].child.Unborn?
    ensures job.Fits() <==> Exec([job], moves).value.xs[0].worker.Finished?
    ensures job.Fits() ==> Exec([job], moves).value.xs[0].client == STATUS_LINE + job.Output()
  {
    RunsKeepInv([job], moves);
    MaximalRuns([job], moves);
    assert LocalInv([job][0], 0, Exec([job], moves).value.xs[0]);
    if job.Fits() {
      assert Over(Exec([job], moves).value.xs[0].worker);
      FinishedExchange([job], moves, 0);
    }
  }
}
