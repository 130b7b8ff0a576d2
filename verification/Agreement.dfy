/** The worker of the protocol and the code: the descriptors a worker opens and closes in a run, in order,
    are those in the log of the connection it serves. */
module Agreement {
  import opened CgiProtocol
  import Connection
  import EndToEnd
  import Responses

  datatype Call = Opened(end: End) | Closed(end: End)

  function SameEnd(e: Connection.End): End {
    match e
    case InR => InR
    case InW => InW
    case OutR => OutR
    case OutW => OutW
  }

  /** The opens and closes in the log of a connection. */
  function CallsOf(log: seq<Connection.Event>): seq<Call> {
    if log == [] then [] else CallOf(log[0]) + CallsOf(log[1..])
  }

  function CallOf(e: Connection.Event): seq<Call> {
    match e
    case OpenEnd(end) => [Opened(SameEnd(end))]
    case ShutEnd(end) => [Closed(SameEnd(end))]
    case CloseClient => [Closed(Client)]
    case _ => []
  }

  /** Those of one call of worker `i`. */
  ghost function EffectCalls(i: nat, e: Effect): seq<Call> {
    if Fd(i, Client) in e.opens then [Opened(Client)]
    else if Fd(i, InR) in e.opens then [Opened(InR), Opened(InW)]
    else if Fd(i, OutR) in e.opens then [Opened(OutR), Opened(OutW)]
    else if Fd(i, Client) in e.shuts then [Closed(Client)]
    else if Fd(i, InR) in e.shuts then [Closed(InR)]
    else if Fd(i, InW) in e.shuts then [Closed(InW)]
    else if Fd(i, OutR) in e.shuts then [Closed(OutR)]
    else if Fd(i, OutW) in e.shuts then [Closed(OutW)]
    else []
  }

  ghost function MoveCalls(jobs: seq<Job>, s: System, m: Move, i: nat): seq<Call>
    requires |s.xs| == |jobs| && i < |jobs|
  {
    if m.ChildMove? || m.i != i then []
    else
      match WorkerNext(jobs[i], i, s.xs[i], s.fds, NoWriter(s, i), m.ok)
      case None => []
      case Some(e) => EffectCalls(i, e)
  }

  /** Those of worker `i` in a run. */
  ghost function WorkerCalls(jobs: seq<Job>, moves: seq<Move>, i: nat): seq<Call>
    requires Exec(jobs, moves).Some? && i < |jobs|
    decreases |moves|
  {
    if moves == [] then []
    else
      var before := moves[..|moves| - 1];
      WorkerCalls(jobs, before, i) + MoveCalls(jobs, Exec(jobs, before).value, moves[|moves| - 1], i)
  }

  // ---------------------------------------------------- how far a worker has come

  function Closes(todo: seq<End>): seq<Call> {
    if todo == [] then [] else [Closed(todo[0])] + Closes(todo[1..])
  }

  const PIPED_BOTH: seq<Call> := [Opened(Client), Opened(InR), Opened(InW), Opened(OutR), Opened(OutW)]

  /** The calls of a worker that fails at its first or second `pipe` or at `fork`. */
  function FailedCalls(stage: nat): seq<Call> {
    if stage == 0 then [Opened(Client), Closed(Client), Closed(Client)]
    else if stage == 1 then
      [Opened(Client), Opened(InR), Opened(InW), Closed(Client), Closed(InR), Closed(InW), Closed(Client)]
    else PIPED_BOTH + [Closed(InR), Closed(InW), Closed(OutR), Closed(OutW), Closed(Client), Closed(Client)]
  }

  ghost predicate Progress(w: Worker, calls: seq<Call>) {
    match w
    case Idle => calls == []
    case Accepted => calls == [Opened(Client)]
    case Start => calls == [Opened(Client)]
    case PipedIn => calls == [Opened(Client), Opened(InR), Opened(InW)]
    case PipedBoth => calls == PIPED_BOTH
    case Aborting(todo) => exists stage: nat :: calls + Closes(todo) + [Closed(Client)] == FailedCalls(stage)
    case Failed => exists stage: nat :: calls == FailedCalls(stage)
    case Forked => calls == PIPED_BOTH
    case InRClosed => calls == PIPED_BOTH + [Closed(InR)]
    case Relaying(_, _) => calls == PIPED_BOTH + [Closed(InR), Closed(OutW)]
    case Draining => calls == PIPED_BOTH + [Closed(InR), Closed(OutW)]
    case SawEof => calls == PIPED_BOTH + [Closed(InR), Closed(OutW)]
    case InWClosed => calls == PIPED_BOTH + [Closed(InR), Closed(OutW), Closed(InW)]
    case Waiting => calls == PIPED_BOTH + [Closed(InR), Closed(OutW), Closed(InW), Closed(OutR)]
    case Served => calls == PIPED_BOTH + [Closed(InR), Closed(OutW), Closed(InW), Closed(OutR)]
    case Finished => calls == PIPED_BOTH + [Closed(InR), Closed(OutW), Closed(InW), Closed(OutR), Closed(Client)]
  }

  lemma ClosesOne(a: End)
    ensures Closes([a]) == [Closed(a)]
  {
    assert [a][1..] == [];
  }

  lemma ClosesThree(a: End, b: End, c: End)
    ensures Closes([a, b, c]) == [Closed(a), Closed(b), Closed(c)]
  {
    assert [a, b, c][1..] == [b, c] && [b, c][1..] == [c];
    ClosesOne(c);
  }

  lemma ClosesFive(a: End, b: End, c: End, d: End, e: End)
    ensures Closes([a, b, c, d, e]) == [Closed(a), Closed(b), Closed(c), Closed(d), Closed(e)]
  {
    assert [a, b, c, d, e][1..] == [b, c, d, e] && [b, c, d, e][1..] == [c, d, e];
    ClosesThree(c, d, e);
  }

  lemma FailingProgress(w: Worker, calls: seq<Call>, todo: seq<End>, stage: nat)
    requires Progress(w, calls) && stage <= 2
    requires stage == 0 ==> (w.Accepted? || w.Start?) && todo == [Client]
    requires stage == 1 ==> w.PipedIn? && todo == [Client, InR, InW]
    requires stage == 2 ==> w.PipedBoth? && todo == [InR, InW, OutR, OutW, Client]
    ensures Progress(Aborting(todo), calls)
  {
    ClosesOne(Client);
    ClosesThree(Client, InR, InW);
    ClosesFive(InR, InW, OutR, OutW, Client);
    assert calls + Closes(todo) + [Closed(Client)] == FailedCalls(stage);
  }

  lemma AbortProgress(calls: seq<Call>, todo: seq<End>)
    requires Progress(Aborting(todo), calls)
    ensures todo != [] ==> Progress(Aborting(todo[1..]), calls + [Closed(todo[0])])
    ensures todo == [] ==> Progress(Failed, calls + [Closed(Client)])
  {
    var stage: nat :| calls + Closes(todo) + [Closed(Client)] == FailedCalls(stage);
    if todo != [] {
      assert calls + [Closed(todo[0])] + Closes(todo[1..]) + [Closed(Client)] == FailedCalls(stage);
    } else {
      assert calls + Closes(todo) == calls;
    }
  }

  lemma WorkerProgress(job: Job, i: nat, x: Exchange, fds: set<Fd>, eof: bool, ok: bool, calls: seq<Call>)
    requires Progress(x.worker, calls) && WorkerNext(job, i, x, fds, eof, ok).Some?
    ensures var e := WorkerNext(job, i, x, fds, eof, ok).value; Progress(e.x.worker, calls + EffectCalls(i, e))
  {
    var e := WorkerNext(job, i, x, fds, eof, ok).value;
    assert EffectCalls(i, e) == [] ==> calls + EffectCalls(i, e) == calls;
    match x.worker
    case Aborting(todo) =>
      AbortProgress(calls, todo);
      if todo != [] {
        match todo[0] {
          case InR => case InW => case OutR => case OutW => case Client =>
        }
      }
    case Accepted => if job.refused { FailingProgress(x.worker, calls, [Client], 0); }
    case Start => if !ok { FailingProgress(x.worker, calls, [Client], 0); }
    case PipedIn => if !ok { FailingProgress(x.worker, calls, [Client, InR, InW], 1); }
    case PipedBoth => if !ok { FailingProgress(x.worker, calls, [InR, InW, OutR, OutW, Client], 2); }
    case _ =>
  }

  lemma {:induction false} CallsProgress(jobs: seq<Job>, moves: seq<Move>, i: nat)
    requires Exec(jobs, moves).Some? && i < |jobs|
    ensures Progress(Exec(jobs, moves).value.xs[i].worker, WorkerCalls(jobs, moves, i))
    decreases |moves|
  {
    if moves != [] {
      var before, m := moves[..|moves| - 1], moves[|moves| - 1];
      CallsProgress(jobs, before, i);
      var s, calls := Exec(jobs, before).value, WorkerCalls(jobs, before, i);
      if m.WorkerMove? && m.i == i {
        WorkerProgress(jobs[i], i, s.xs[i], s.fds, NoWriter(s, i), m.ok, calls);
      } else {
        assert calls + [] == calls;
        if m.ChildMove? && m.i == i { ChildHeld(jobs[i], i, s.xs[i]); }
      }
    }
  }

  // ---------------------------------------------------------- the code's log

  lemma {:induction false} CallsConcat(a: seq<Connection.Event>, b: seq<Connection.Event>)
    ensures CallsOf(a + b) == CallsOf(a) + CallsOf(b)
    decreases |a|
  {
    if a == [] {
      assert a + b == b;
    } else {
      assert (a + b)[1..] == a[1..] + b;
      CallsConcat(a[1..], b);
    }
  }

  predicate Silent(e: Connection.Event) {
    e.Send? || e.Spawn? || e.Feed?
  }

  lemma {:induction false} NoCalls(a: seq<Connection.Event>)
    requires forall k :: 0 <= k < |a| ==> Silent(a[k])
    ensures CallsOf(a) == []
    decreases |a|
  {
    if a != [] { NoCalls(a[1..]); }
  }

  lemma OneCall(e: Connection.Event)
    ensures CallsOf([e]) == CallOf(e)
  {
    assert [e][1..] == [];
    assert CallsOf([]) == [];
  }

  lemma OpenPair(a: Connection.End, b: Connection.End)
    ensures CallsOf([Connection.OpenEnd(a), Connection.OpenEnd(b)]) == [Opened(SameEnd(a)), Opened(SameEnd(b))]
  {
    OneCall(Connection.OpenEnd(a));
    OneCall(Connection.OpenEnd(b));
    CallsConcat([Connection.OpenEnd(a)], [Connection.OpenEnd(b)]);
    assert [Connection.OpenEnd(a)] + [Connection.OpenEnd(b)] == [Connection.OpenEnd(a), Connection.OpenEnd(b)];
  }

  lemma ShutPair(a: Connection.End, b: Connection.End)
    ensures CallsOf([Connection.ShutEnd(a), Connection.ShutEnd(b)]) == [Closed(SameEnd(a)), Closed(SameEnd(b))]
  {
    OneCall(Connection.ShutEnd(a));
    OneCall(Connection.ShutEnd(b));
    CallsConcat([Connection.ShutEnd(a)], [Connection.ShutEnd(b)]);
    assert [Connection.ShutEnd(a)] + [Connection.ShutEnd(b)] == [Connection.ShutEnd(a), Connection.ShutEnd(b)];
  }

  lemma ClosePair()
    ensures CallsOf([Connection.CloseClient, Connection.CloseClient]) == [Closed(Client), Closed(Client)]
  {
    var close := Connection.CloseClient;
    OneCall(close);
    CallsConcat([close], [close]);
    assert [close] + [close] == [close, close];
  }

  /** The calls of a log put together from parts. */
  lemma CallsOfParts(a: seq<Connection.Event>, b: seq<Connection.Event>, c: seq<Connection.Event>, d: seq<Connection.Event>)
    ensures CallsOf(a + b + c + d) == CallsOf(a) + CallsOf(b) + CallsOf(c) + CallsOf(d)
  {
    CallsConcat(a + b + c, d);
    CallsConcat(a + b, c);
    CallsConcat(a, b);
  }

  const OPEN_ENDS: seq<Connection.Event> :=
    [Connection.OpenEnd(Connection.InR), Connection.OpenEnd(Connection.InW)]
    + [Connection.OpenEnd(Connection.OutR), Connection.OpenEnd(Connection.OutW)]

  lemma OpenCalls()
    ensures CallsOf(OPEN_ENDS) == [Opened(InR), Opened(InW)] + [Opened(OutR), Opened(OutW)]
  {
    OpenPair(Connection.InR, Connection.InW);
    OpenPair(Connection.OutR, Connection.OutW);
    CallsConcat([Connection.OpenEnd(Connection.InR), Connection.OpenEnd(Connection.InW)],
                [Connection.OpenEnd(Connection.OutR), Connection.OpenEnd(Connection.OutW)]);
  }

  /** What the log of a served program opens and closes, in order. */
  lemma ServedCalls(program: string, meth: string, input: Connection.CgiInput, body: string, output: string)
    ensures CallsOf(EndToEnd.ServedLog(program, meth, input, body, output))
            == [Opened(InR), Opened(InW)] + [Opened(OutR), Opened(OutW)] + [Closed(InR), Closed(OutW)]
               + ([Closed(InW), Closed(OutR)] + [Closed(Client)])
  {
    var status, spawn := [Connection.Send("HTTP/1.0 200 OK\r\n\r\n")], [Connection.Spawn(program, meth, input)];
    var shut := [Connection.ShutEnd(Connection.InR), Connection.ShutEnd(Connection.OutW)];
    var fed := [Connection.Feed(body)] + Connection.Sends(Connection.Singletons(output));
    var last, close := [Connection.ShutEnd(Connection.InW), Connection.ShutEnd(Connection.OutR)], [Connection.CloseClient];
    NoCalls(status);
    NoCalls(spawn);
    NoCalls(fed);
    OpenCalls();
    ShutPair(Connection.InR, Connection.OutW);
    ShutPair(Connection.InW, Connection.OutR);
    OneCall(Connection.CloseClient);
    CallsConcat(last, close);
    SevenParts(status, OPEN_ENDS, spawn, shut, fed, last + close);
    ServedParts(program, meth, input, body, output, status, spawn, shut, fed, last, close);
  }

  lemma SevenParts(a: seq<Connection.Event>, b: seq<Connection.Event>, c: seq<Connection.Event>, d: seq<Connection.Event>,
                   e: seq<Connection.Event>, f: seq<Connection.Event>)
    requires CallsOf(a) == [] && CallsOf(c) == [] && CallsOf(e) == []
    ensures CallsOf(a + b + c + d + e + f + []) == CallsOf(b) + CallsOf(d) + CallsOf(f)
  {
    SixParts(a, b, c, d, e, f);
  }

  lemma ServedParts(program: string, meth: string, input: Connection.CgiInput, body: string, output: string,
                    status: seq<Connection.Event>, spawn: seq<Connection.Event>, shut: seq<Connection.Event>,
                    fed: seq<Connection.Event>, last: seq<Connection.Event>, close: seq<Connection.Event>)
    requires status == [Connection.Send("HTTP/1.0 200 OK\r\n\r\n")] && spawn == [Connection.Spawn(program, meth, input)]
    requires shut == [Connection.ShutEnd(Connection.InR), Connection.ShutEnd(Connection.OutW)]
    requires fed == [Connection.Feed(body)] + Connection.Sends(Connection.Singletons(output))
    requires last == [Connection.ShutEnd(Connection.InW), Connection.ShutEnd(Connection.OutR)] && close == [Connection.CloseClient]
    ensures EndToEnd.ServedLog(program, meth, input, body, output)
            == status + OPEN_ENDS + spawn + shut + fed + (last + close) + []
  {
  }

  /** The same for a program that is not started. */
  lemma NotStartedCalls(o: Connection.Outcomes)
    requires !(o.pipeInOk && o.pipeOutOk && o.forkOk)
    ensures [Opened(Client)] + CallsOf(Responses.FailedLog(o))
            == FailedCalls(if !o.pipeInOk then 0 else if !o.pipeOutOk then 1 else 2)
  {
    NoCalls(Responses.PAGE_500);
    NoCalls([Responses.OK_LINE]);
    ClosePair();
    if !o.pipeInOk {
      CallsOfParts([Responses.OK_LINE], Responses.PAGE_500, [Connection.CloseClient, Connection.CloseClient], []);
      assert Responses.FailedLog(o)
             == [Responses.OK_LINE] + Responses.PAGE_500 + [Connection.CloseClient, Connection.CloseClient] + [];
    } else if !o.pipeOutOk {
      SecondPipeCalls(o);
    } else {
      ForkCalls(o);
    }
  }

  lemma SecondPipeCalls(o: Connection.Outcomes)
    requires o.pipeInOk && !o.pipeOutOk && CallsOf(Responses.PAGE_500) == [] && CallsOf([Responses.OK_LINE]) == []
    ensures [Opened(Client)] + CallsOf(Responses.FailedLog(o)) == FailedCalls(1)
  {
    var open, close := [Connection.OpenEnd(Connection.InR), Connection.OpenEnd(Connection.InW)], [Connection.CloseClient];
    var shut := [Connection.ShutEnd(Connection.InR), Connection.ShutEnd(Connection.InW)];
    OpenPair(Connection.InR, Connection.InW);
    ShutPair(Connection.InR, Connection.InW);
    OneCall(Connection.CloseClient);
    SecondPipeParts(Responses.OK_LINE, Responses.PAGE_500, open, close, shut);
    SixParts([Responses.OK_LINE], open, Responses.PAGE_500, close, shut, close);
    FailedCallsAre();
  }

  lemma SixParts(a: seq<Connection.Event>, b: seq<Connection.Event>, c: seq<Connection.Event>, d: seq<Connection.Event>,
                 e: seq<Connection.Event>, f: seq<Connection.Event>)
    ensures CallsOf(a + b + c + d + e + f + [])
            == CallsOf(a) + CallsOf(b) + CallsOf(c) + CallsOf(d) + CallsOf(e) + CallsOf(f)
  {
    CallsOfParts(a, b, c, d);
    CallsOfParts(a + b + c + d, e, f, []);
    assert CallsOf([]) == [];
  }

  lemma SecondPipeParts(ok: Connection.Event, page: seq<Connection.Event>, open: seq<Connection.Event>,
                        close: seq<Connection.Event>, shut: seq<Connection.Event>)
    requires |open| == |shut| == 2 && |close| == 1
    ensures [ok, open[0], open[1]] + page + [close[0], shut[0], shut[1], close[0]]
            == [ok] + open + page + close + shut + close + []
  {
  }

  lemma FailedCallsAre()
    ensures FailedCalls(1) == [Opened(Client)] + ([Opened(InR), Opened(InW)] + [Closed(Client)] + [Closed(InR), Closed(InW)]
                                                  + [Closed(Client)])
    ensures FailedCalls(2) == [Opened(Client)] + ([Opened(InR), Opened(InW)] + [Opened(OutR), Opened(OutW)]
                                                  + [Closed(InR), Closed(InW)] + [Closed(OutR), Closed(OutW)]
                                                  + [Closed(Client), Closed(Client)])
  {
  }

  lemma ForkCalls(o: Connection.Outcomes)
    requires o.pipeInOk && o.pipeOutOk && CallsOf(Responses.PAGE_500) == [] && CallsOf([Responses.OK_LINE]) == []
    requires CallsOf([Connection.CloseClient, Connection.CloseClient]) == [Closed(Client), Closed(Client)]
    ensures [Opened(Client)] + CallsOf(Responses.FailedLog(o)) == FailedCalls(2)
  {
    var a, b := [Connection.ShutEnd(Connection.InR), Connection.ShutEnd(Connection.InW)],
                [Connection.ShutEnd(Connection.OutR), Connection.ShutEnd(Connection.OutW)];
    var close := [Connection.CloseClient, Connection.CloseClient];
    OpenCalls();
    ShutPair(Connection.InR, Connection.InW);
    ShutPair(Connection.OutR, Connection.OutW);
    ForkParts(Responses.OK_LINE, Responses.PAGE_500, OPEN_ENDS, a, b, close);
    SixParts([Responses.OK_LINE], OPEN_ENDS, a, b, Responses.PAGE_500, close);
    ForkSum(CallsOf(Responses.FailedLog(o)));
  }

  lemma ForkSum(calls: seq<Call>)
    requires calls == [] + ([Opened(InR), Opened(InW)] + [Opened(OutR), Opened(OutW)]) + [Closed(InR), Closed(InW)]
                      + [Closed(OutR), Closed(OutW)] + [] + [Closed(Client), Closed(Client)]
    ensures [Opened(Client)] + calls == FailedCalls(2)
  {
  }

  lemma ForkParts(ok: Connection.Event, page: seq<Connection.Event>, open: seq<Connection.Event>,
                  a: seq<Connection.Event>, b: seq<Connection.Event>, close: seq<Connection.Event>)
    requires |open| == 4 && |a| == |b| == |close| == 2
    ensures [ok, open[0], open[1], open[2], open[3], a[0], a[1], b[0], b[1]] + page + close
            == [ok] + open + a + b + page + close + []
  {
    assert [ok, open[0], open[1], open[2], open[3], a[0], a[1], b[0], b[1]] == [ok] + open + a + b;
  }

  /** In every run a worker that finishes has opened and closed, in this order, its client and what the log
      of a served program shows ... */
  lemma FinishedFollowsTheCode(jobs: seq<Job>, moves: seq<Move>, i: nat, program: string, meth: string,
                               input: Connection.CgiInput, body: string, output: string)
    requires Exec(jobs, moves).Some? && i < |jobs| && Exec(jobs, moves).value.xs[i].worker.Finished?
    ensures WorkerCalls(jobs, moves, i)
            == [Opened(Client)] + CallsOf(EndToEnd.ServedLog(program, meth, input, body, output))
  {
    CallsProgress(jobs, moves, i);
    ServedCalls(program, meth, input, body, output);
    AllCalls();
  }

  lemma AllCalls()
    ensures PIPED_BOTH + [Closed(InR), Closed(OutW), Closed(InW), Closed(OutR), Closed(Client)]
            == [Opened(Client)] + ([Opened(InR), Opened(InW)] + [Opened(OutR), Opened(OutW)] + [Closed(InR), Closed(OutW)]
                                   + ([Closed(InW), Closed(OutR)] + [Closed(Client)]))
  {
  }

  /** ... and a worker that failed, its client and what the log of a program that was not started shows. */
  lemma FailedFollowsTheCode(jobs: seq<Job>, moves: seq<Move>, i: nat) returns (o: Connection.Outcomes)
    requires Exec(jobs, moves).Some? && i < |jobs| && Exec(jobs, moves).value.xs[i].worker.Failed?
    ensures !(o.pipeInOk && o.pipeOutOk && o.forkOk)
    ensures WorkerCalls(jobs, moves, i) == [Opened(Client)] + CallsOf(Responses.FailedLog(o))
  {
    CallsProgress(jobs, moves, i);
    var stage: nat :| WorkerCalls(jobs, moves, i) == FailedCalls(stage);
    o := Connection.Outcomes(true, false, true, true, true, "", stage != 0, stage > 1, false, "");
    NotStartedCalls(o);
  }
}
