/** The same requests with descriptors taken by number. The server has one table of open numbers; a
    descriptor opened gets the lowest free number, a worker keeps its numbers in local variables, and a
    call reaches whatever its number names by then. After an error of its own a worker closes its
    client's number a second time, when that number may name something else. Numbers are counted from
    the first one behind the listening socket. */
module DescriptorNumbers {
  import opened CText
  import opened CgiProtocol

  type Table = map<nat, Fd>
  type Vars = map<Fd, nat>

  /** `sys` is the state by name; `table` the server's open numbers, `vars` the local variables that hold
      numbers, `kids` the tables the children inherited. */
  datatype Server = Server(sys: System, table: Table, vars: Vars, kids: seq<Table>)

  // ------------------------------------------------------------------ numbers

  /** The lowest number from `n` on that is not used. */
  function FirstFree(used: set<nat>, n: nat): (r: nat)
    ensures r >= n && r !in used
    ensures forall k :: n <= k < r ==> k in used
    decreases |used|
  {
    if n !in used then n
    else
      var least := FirstFree(used - {n}, n + 1);
      assert forall k :: n <= k < least ==> k in used by {
        forall k | n <= k < least ensures k in used {
          assert k != n ==> k in used - {n};
        }
      }
      least
  }

  datatype Numbers = Numbers(table: Table, vars: Vars)

  function OpenOne(t: Numbers, fd: Fd): Numbers {
    var n := FirstFree(t.table.Keys, 0);
    Numbers(t.table[n := fd], t.vars[fd := n])
  }

  /** `accept` opens one number, `pipe` two, the read end first. */
  function OpenAll(t: Numbers, i: nat, opens: set<Fd>): Numbers {
    if Fd(i, Client) in opens then OpenOne(t, Fd(i, Client))
    else if Fd(i, InR) in opens then OpenOne(OpenOne(t, Fd(i, InR)), Fd(i, InW))
    else if Fd(i, OutR) in opens then OpenOne(OpenOne(t, Fd(i, OutR)), Fd(i, OutW))
    else t
  }

  function NumbersOf(vars: Vars, fds: set<Fd>): set<nat> {
    set fd | fd in fds && fd in vars :: vars[fd]
  }

  /** Closing by number: whatever the variables of `shuts` name goes. */
  function CloseAll(table: Table, vars: Vars, shuts: set<Fd>): Table {
    table - NumbersOf(vars, shuts)
  }

  /** What a variable names in a table; a call on None fails. */
  function Target(table: Table, vars: Vars, fd: Fd): Option<Fd> {
    if fd in vars && vars[fd] in table then Some(table[vars[fd]]) else None
  }

  // ------------------------------------------------------------ calls by number

  /** `send`: only on a connection. */
  function Send(xs: seq<Exchange>, to: Option<Fd>, data: string): (r: seq<Exchange>)
    ensures |r| == |xs|
  {
    if to.Some? && to.value.exchange < |xs| && to.value.end.Client?
    then var k := to.value.exchange; xs[k := xs[k].(client := xs[k].client + data)]
    else xs
  }

  /** `write` of one byte; None when it blocks. */
  function Write(jobs: seq<Job>, xs: seq<Exchange>, to: Option<Fd>, c: char): (r: Option<seq<Exchange>>)
    requires |jobs| == |xs|
    ensures r.Some? ==> |r.value| == |xs|
  {
    if to.None? || to.value.exchange >= |xs| then Some(xs)
    else
      var k := to.value.exchange;
      var x := xs[k];
      match to.value.end
      case InW => if |x.inPipe| >= jobs[k].inCap then None else Some(xs[k := x.(inPipe := x.inPipe + [c])])
      case OutW => if |x.outPipe| >= jobs[k].outCap then None else Some(xs[k := x.(outPipe := x.outPipe + [c])])
      case Client => Some(xs[k := x.(client := x.client + [c])])
      case _ => Some(xs)
  }

  datatype Read = Byte(c: char, xs: seq<Exchange>) | NoMore | Blocked

  ghost predicate NoHolder(s: System, fd: Fd) {
    fd !in s.fds && forall j :: 0 <= j < |s.xs| ==> fd !in s.xs[j].held
  }

  /** `read` of one byte, in a state `s`; an error counts as the end. */
  ghost function ReadByte(s: System, from: Option<Fd>): (r: Read)
    ensures r.Byte? ==> |r.xs| == |s.xs|
  {
    if from.None? || from.value.exchange >= |s.xs| then NoMore
    else
      var k := from.value.exchange;
      var x := s.xs[k];
      match from.value.end
      case OutR =>
        if x.outPipe != "" then Byte(x.outPipe[0], s.xs[k := x.(outPipe := x.outPipe[1..])])
        else if NoHolder(s, Fd(k, OutW)) then NoMore
        else Blocked
      case InR =>
        if x.inPipe != "" then Byte(x.inPipe[0], s.xs[k := x.(inPipe := x.inPipe[1..])])
        else if NoHolder(s, Fd(k, InW)) then NoMore
        else Blocked
      case Client =>
        if x.sock != "" then Byte(x.sock[0], s.xs[k := x.(sock := x.sock[1..])]) else NoMore
      case _ => NoMore
  }

  /** `recv` of one byte: only on a connection, and `c` keeps its value when nothing comes. */
  function Recv(xs: seq<Exchange>, from: Option<Fd>, c: char): (r: (char, seq<Exchange>))
    ensures |r.1| == |xs|
  {
    if from.Some? && from.value.exchange < |xs| && from.value.end.Client? && xs[from.value.exchange].sock != ""
    then
      var k := from.value.exchange;
      (xs[k].sock[0], xs[k := xs[k].(sock := xs[k].sock[1..])])
    else (c, xs)
  }

  // -------------------------------------------------------------------- moves

  ghost predicate Shaped(jobs: seq<Job>, v: Server) {
    |v.sys.xs| == |v.kids| == |jobs|
  }

  function WithWorker(xs: seq<Exchange>, i: nat, w: Worker): seq<Exchange>
    requires i < |xs|
  {
    xs[i := xs[i].(worker := w)]
  }

  function WithChild(xs: seq<Exchange>, i: nat, c: Child): seq<Exchange>
    requires i < |xs|
  {
    xs[i := xs[i].(child := c)]
  }

  function WithXs(v: Server, xs: seq<Exchange>): Server {
    v.(sys := v.sys.(xs := xs))
  }

  /** A worker's move. Its calls on the client and the pipes go where its numbers lead; otherwise its
      program counter moves as by name, what it opens is numbered, and what it closes is a number. */
  ghost function WorkerStep(jobs: seq<Job>, v: Server, i: nat, ok: bool): (r: Option<Server>)
    requires Shaped(jobs, v) && i < |jobs|
    ensures r.Some? ==> Shaped(jobs, r.value)
  {
    var x := v.sys.xs[i];
    var client := Target(v.table, v.vars, Fd(i, Client));
    match x.worker
    case Accepted =>
      if jobs[i].refused then WorkerControl(jobs, v, i, ok)
      else Some(WithXs(v, Send(WithWorker(v.sys.xs, i, Start), client, STATUS_LINE)))
    case Relaying(k, c) =>
      if k >= jobs[i].length then WorkerControl(jobs, v, i, ok)
      else
        var got := Recv(v.sys.xs, client, c);
        (match Write(jobs, WithWorker(got.1, i, Relaying(k + 1, got.0)), Target(v.table, v.vars, Fd(i, InW)), got.0)
         case None => None
         case Some(xs) => Some(WithXs(v, xs)))
    case Draining =>
      (match ReadByte(v.sys, Target(v.table, v.vars, Fd(i, OutR)))
       case Blocked => None
       case NoMore => Some(WithXs(v, WithWorker(v.sys.xs, i, SawEof)))
       case Byte(c, xs) => Some(WithXs(v, Send(xs, client, [c]))))
    case _ => WorkerControl(jobs, v, i, ok)
  }

  ghost function WorkerControl(jobs: seq<Job>, v: Server, i: nat, ok: bool): (r: Option<Server>)
    requires Shaped(jobs, v) && i < |jobs|
    ensures r.Some? ==> Shaped(jobs, r.value)
  {
    var x := v.sys.xs[i];
    match WorkerNext(jobs[i], i, x, v.sys.fds, NoWriter(v.sys, i), ok)
    case None => None
    case Some(e) =>
      var t := OpenAll(Numbers(v.table, v.vars), i, e.opens);
      var table := CloseAll(t.table, v.vars, e.shuts);
      Some(Server(System(v.sys.xs[i := e.x], table.Values, v.sys.created + e.opens, v.sys.closes + multiset(e.shuts)),
                  table, t.vars, if x.worker.PipedBoth? && ok then v.kids[i := v.table] else v.kids))
  }

  /** A child's move. Standard input and output are what the worker's numbers named at the fork; a read
      that yields nothing leaves a zero byte in the buffer. */
  ghost function ChildStep(jobs: seq<Job>, v: Server, i: nat): (r: Option<Server>)
    requires Shaped(jobs, v) && i < |jobs|
    ensures r.Some? ==> Shaped(jobs, r.value)
  {
    var job, x := jobs[i], v.sys.xs[i];
    var output := Target(v.kids[i], v.vars, Fd(i, OutW));
    match x.child
    case Flushing(k) =>
      if k >= |job.prefix| then ChildControl(jobs, v, i)
      else Written(v, Write(jobs, WithChild(v.sys.xs, i, Flushing(k + 1)), output, job.prefix[k]))
    case Reading =>
      if |x.got| >= job.length then ChildControl(jobs, v, i)
      else
        (match ReadByte(v.sys, Target(v.kids[i], v.vars, Fd(i, InR)))
         case Blocked => None
         case NoMore => Some(WithXs(v, Keep(v.sys.xs, i, NUL)))
         case Byte(c, xs) => Some(WithXs(v, Keep(xs, i, c))))
    case Answering(k) =>
      if k >= |job.respond(x.got)| then ChildControl(jobs, v, i)
      else Written(v, Write(jobs, WithChild(v.sys.xs, i, Answering(k + 1)), output, job.respond(x.got)[k]))
    case _ => ChildControl(jobs, v, i)
  }

  function Keep(xs: seq<Exchange>, i: nat, c: char): seq<Exchange>
    requires i < |xs|
  {
    xs[i := xs[i].(got := xs[i].got + [c])]
  }

  function Written(v: Server, r: Option<seq<Exchange>>): Option<Server> {
    match r
    case None => None
    case Some(xs) => Some(WithXs(v, xs))
  }

  ghost function ChildControl(jobs: seq<Job>, v: Server, i: nat): (r: Option<Server>)
    requires Shaped(jobs, v) && i < |jobs|
    ensures r.Some? ==> Shaped(jobs, r.value)
  {
    match ChildNext(jobs[i], i, v.sys.xs[i])
    case None => None
    case Some(x) =>
      var kid := KidAfter(v.kids[i], v.vars, i, v.sys.xs[i].child, x.child);
      Some(v.(sys := v.sys.(xs := v.sys.xs[i := x.(held := kid.Values)]), kids := v.kids[i := kid]))
  }

  function KidAfter(kid: Table, vars: Vars, i: nat, before: Child, after: Child): Table {
    if before.Born? then CloseAll(kid, vars, {Fd(i, InW)})
    else if before.InWShut? then CloseAll(kid, vars, {Fd(i, OutR)})
    else if after.Exited? then map[]
    else kid
  }

  ghost function Step(jobs: seq<Job>, v: Server, m: Move): (r: Option<Server>)
    requires Shaped(jobs, v)
    ensures r.Some? ==> Shaped(jobs, r.value)
  {
    if m.i >= |jobs| then None
    else match m
      case WorkerMove(i, ok) => WorkerStep(jobs, v, i, ok)
      case ChildMove(i) => ChildStep(jobs, v, i)
  }

  ghost function Boot(jobs: seq<Job>): Server {
    Server(Init(jobs), map[], map[], seq(|jobs|, _ => map[]))
  }

  /** The state after a sequence of moves, None if one of them was not possible. */
  ghost function Run(jobs: seq<Job>, moves: seq<Move>): (r: Option<Server>)
    ensures r.Some? ==> Shaped(jobs, r.value)
    decreases |moves|
  {
    if moves == [] then Some(Boot(jobs))
    else
      var r := Run(jobs, moves[..|moves| - 1]);
      if r.None? then None else Step(jobs, r.value, moves[|moves| - 1])
  }

  ghost predicate Maximal(jobs: seq<Job>, v: Server)
    requires Shaped(jobs, v)
  {
    forall m :: Step(jobs, v, m).None?
  }

  /** A second close that finds its number taken. */
  ghost predicate Hits(v: Server, m: Move) {
    && m.WorkerMove? && m.i < |v.sys.xs| && SecondClose(v.sys.xs[m.i].worker)
    && Target(v.table, v.vars, Fd(m.i, Client)).Some?
  }

  /** A run in which no second close does. */
  ghost predicate Unhit(jobs: seq<Job>, moves: seq<Move>)
    decreases |moves|
  {
    && Run(jobs, moves).Some?
    && (moves != [] ==>
          var before := moves[..|moves| - 1];
          Unhit(jobs, before) && !Hits(Run(jobs, before).value, moves[|moves| - 1]))
  }

  // -------------------------------------------- numbers and names, while nothing is hit

  /** Every number of a table is the one its descriptor was given. */
  predicate Faithful(table: Table, vars: Vars) {
    forall n :: n in table ==> table[n] in vars && vars[table[n]] == n
  }

  ghost predicate Linked(v: Server) {
    && |v.kids| == |v.sys.xs|
    && v.sys.fds == v.table.Values && v.vars.Keys == v.sys.created
    && Faithful(v.table, v.vars)
    && forall i :: 0 <= i < |v.kids| ==> Faithful(v.kids[i], v.vars) && v.sys.xs[i].held == v.kids[i].Values
  }

  lemma Resolves(table: Table, vars: Vars, fd: Fd)
    requires Faithful(table, vars) && fd in table.Values
    ensures Target(table, vars, fd) == Some(fd)
  {
    var n :| n in table && table[n] == fd;
  }

  lemma OpenedOne(t: Numbers, fd: Fd)
    requires Faithful(t.table, t.vars) && fd !in t.vars
    ensures var u := OpenOne(t, fd);
            && Faithful(u.table, u.vars)
            && u.table.Values == t.table.Values + {fd} && u.vars.Keys == t.vars.Keys + {fd}
            && forall g :: g in t.vars ==> u.vars[g] == t.vars[g]
  {
    var u, n := OpenOne(t, fd), FirstFree(t.table.Keys, 0);
    forall g | g in t.table.Values + {fd} ensures g in u.table.Values {
      if g == fd {
        assert u.table[n] == fd;
      } else {
        var k :| k in t.table && t.table[k] == g;
        assert u.table[k] == g;
      }
    }
  }

  /** The sets of descriptors that one call opens. */
  predicate Openable(i: nat, opens: set<Fd>) {
    opens == {} || opens == {Fd(i, Client)} || opens == {Fd(i, InR), Fd(i, InW)} || opens == {Fd(i, OutR), Fd(i, OutW)}
  }

  lemma OpenedAll(t: Numbers, i: nat, opens: set<Fd>)
    requires Faithful(t.table, t.vars) && Openable(i, opens) && opens !! t.vars.Keys
    ensures var u := OpenAll(t, i, opens);
            && Faithful(u.table, u.vars)
            && u.table.Values == t.table.Values + opens && u.vars.Keys == t.vars.Keys + opens
            && forall g :: g in t.vars ==> u.vars[g] == t.vars[g]
  {
    if Fd(i, Client) in opens {
      OpenedOne(t, Fd(i, Client));
    } else if Fd(i, InR) in opens {
      OpenedOne(t, Fd(i, InR));
      OpenedOne(OpenOne(t, Fd(i, InR)), Fd(i, InW));
    } else if Fd(i, OutR) in opens {
      OpenedOne(t, Fd(i, OutR));
      OpenedOne(OpenOne(t, Fd(i, OutR)), Fd(i, OutW));
    }
  }

  lemma StaysFaithful(table: Table, vars: Vars, vars': Vars)
    requires Faithful(table, vars) && forall g :: g in vars ==> g in vars' && vars'[g] == vars[g]
    ensures Faithful(table, vars')
  {
  }

  /** Closing a number closes the descriptor it was given to, or nothing if it is free. */
  lemma ClosedOne(table: Table, vars: Vars, fd: Fd)
    requires Faithful(table, vars) && (fd in table.Values || Target(table, vars, fd).None?)
    ensures var u := CloseAll(table, vars, {fd});
            Faithful(u, vars) && u.Values == table.Values - {fd}
  {
    var u := CloseAll(table, vars, {fd});
    forall n | n in table ensures n in u <==> table[n] != fd {
      assert n in NumbersOf(vars, {fd}) <==> fd in vars && vars[fd] == n;
    }
    forall g | g in table.Values - {fd} ensures g in u.Values {
      var n :| n in table && table[n] == g;
      assert u[n] == g;
    }
  }

  lemma ClosedNone(table: Table, vars: Vars)
    ensures CloseAll(table, vars, {}) == table
  {
    assert NumbersOf(vars, {}) == {};
  }

  /** The same move by name gives the same state, and both are possible or neither is. */
  ghost predicate Agree(jobs: seq<Job>, v: Server, m: Move)
    requires Shaped(jobs, v)
  {
    match (Step(jobs, v, m), Next(jobs, v.sys, m))
    case (None, None) => true
    case (Some(v'), Some(s')) => v'.sys == s' && Linked(v')
    case _ => false
  }

  lemma HeldResolves(jobs: seq<Job>, v: Server, i: nat, e: End)
    requires Shaped(jobs, v) && Linked(v) && Inv(jobs, v.sys) && i < |jobs| && Holds(v.sys.xs[i].worker, e)
    ensures Target(v.table, v.vars, Fd(i, e)) == Some(Fd(i, e))
  {
    assert TableEntry(v.sys, Fd(i, e));
    Resolves(v.table, v.vars, Fd(i, e));
  }

  lemma SameTable(s: System, xs: seq<Exchange>)
    ensures System(xs, s.fds + {} - {}, s.created + {}, s.closes + multiset({})) == s.(xs := xs)
  {
    assert s.fds + {} - {} == s.fds && s.created + {} == s.created;
    assert s.closes + multiset({}) == s.closes;
  }

  lemma StillLinked(v: Server, xs: seq<Exchange>)
    requires Linked(v) && |xs| == |v.sys.xs| && forall i :: 0 <= i < |xs| ==> xs[i].held == v.sys.xs[i].held
    ensures Linked(WithXs(v, xs))
  {
  }

  lemma GreetingAgrees(jobs: seq<Job>, v: Server, i: nat, ok: bool)
    requires Shaped(jobs, v) && Linked(v) && Inv(jobs, v.sys) && i < |jobs|
    requires v.sys.xs[i].worker.Accepted? && !jobs[i].refused
    ensures Agree(jobs, v, WorkerMove(i, ok))
  {
    var x := v.sys.xs[i];
    HeldResolves(jobs, v, i, Client);
    var xs := v.sys.xs[i := x.(worker := Start, client := x.client + STATUS_LINE)];
    assert WithWorker(v.sys.xs, i, Start)[i := x.(worker := Start, client := x.client + STATUS_LINE)] == xs;
    SameTable(v.sys, xs);
    StillLinked(v, xs);
  }

  lemma RelayAgrees(jobs: seq<Job>, v: Server, i: nat, ok: bool)
    requires Shaped(jobs, v) && Linked(v) && Inv(jobs, v.sys) && i < |jobs|
    requires v.sys.xs[i].worker.Relaying? && v.sys.xs[i].worker.count < jobs[i].length
    ensures Agree(jobs, v, WorkerMove(i, ok))
  {
    HeldResolves(jobs, v, i, Client);
    HeldResolves(jobs, v, i, InW);
    RelayedByte(jobs, v, i, ok);
  }

  /** A worker's move that changes only its own exchange and not the table. */
  lemma SameMove(jobs: seq<Job>, v: Server, i: nat, ok: bool, x: Exchange)
    requires Shaped(jobs, v) && Linked(v) && i < |jobs| && x.held == v.sys.xs[i].held
    requires Step(jobs, v, WorkerMove(i, ok)) == Some(WithXs(v, v.sys.xs[i := x]))
    requires WorkerNext(jobs[i], i, v.sys.xs[i], v.sys.fds, NoWriter(v.sys, i), ok) == Some(Effect(x, {}, {}))
    ensures Agree(jobs, v, WorkerMove(i, ok))
  {
    SameTable(v.sys, v.sys.xs[i := x]);
    StillLinked(v, v.sys.xs[i := x]);
  }

  lemma RelayedByte(jobs: seq<Job>, v: Server, i: nat, ok: bool)
    requires Shaped(jobs, v) && Linked(v) && i < |jobs|
    requires v.sys.xs[i].worker.Relaying? && v.sys.xs[i].worker.count < jobs[i].length
    requires Target(v.table, v.vars, Fd(i, Client)) == Some(Fd(i, Client))
    requires Target(v.table, v.vars, Fd(i, InW)) == Some(Fd(i, InW))
    ensures Agree(jobs, v, WorkerMove(i, ok))
  {
    var xs, x := v.sys.xs, v.sys.xs[i];
    var got := Recv(xs, Some(Fd(i, Client)), x.worker.c);
    var y := x.(worker := Relaying(x.worker.count + 1, got.0), sock := if x.sock == "" then x.sock else x.sock[1..]);
    RelayedState(xs, i, x.worker, got, y);
    if |x.inPipe| < jobs[i].inCap {
      var z := y.(inPipe := x.inPipe + [got.0]);
      WrittenTwice(xs, i, y, z);
      SameMove(jobs, v, i, ok, z);
    }
  }

  lemma RelayedState(xs: seq<Exchange>, i: nat, w: Worker, got: (char, seq<Exchange>), y: Exchange)
    requires i < |xs| && w.Relaying? && got == Recv(xs, Some(Fd(i, Client)), w.c)
    requires y == xs[i].(worker := Relaying(w.count + 1, got.0), sock := if xs[i].sock == "" then xs[i].sock else xs[i].sock[1..])
    ensures WithWorker(got.1, i, y.worker) == xs[i := y]
  {
  }

  lemma DrainAgrees(jobs: seq<Job>, v: Server, i: nat, ok: bool)
    requires Shaped(jobs, v) && Linked(v) && Inv(jobs, v.sys) && i < |jobs|
    requires v.sys.xs[i].worker.Draining?
    ensures Agree(jobs, v, WorkerMove(i, ok))
  {
    HeldResolves(jobs, v, i, Client);
    HeldResolves(jobs, v, i, OutR);
    if v.sys.xs[i].outPipe != "" {
      DrainedByte(jobs, v, i, ok);
    } else {
      DrainedAll(jobs, v, i, ok);
    }
  }

  lemma DrainedAll(jobs: seq<Job>, v: Server, i: nat, ok: bool)
    requires Shaped(jobs, v) && Linked(v) && i < |jobs|
    requires v.sys.xs[i].worker.Draining? && v.sys.xs[i].outPipe == ""
    requires Target(v.table, v.vars, Fd(i, OutR)) == Some(Fd(i, OutR))
    ensures Agree(jobs, v, WorkerMove(i, ok))
  {
    SameTable(v.sys, WithWorker(v.sys.xs, i, SawEof));
    StillLinked(v, WithWorker(v.sys.xs, i, SawEof));
    assert NoWriter(v.sys, i) <==> NoHolder(v.sys, Fd(i, OutW));
  }

  lemma DrainedByte(jobs: seq<Job>, v: Server, i: nat, ok: bool)
    requires Shaped(jobs, v) && Linked(v) && i < |jobs|
    requires v.sys.xs[i].worker.Draining? && v.sys.xs[i].outPipe != ""
    requires Target(v.table, v.vars, Fd(i, Client)) == Some(Fd(i, Client))
    requires Target(v.table, v.vars, Fd(i, OutR)) == Some(Fd(i, OutR))
    ensures Agree(jobs, v, WorkerMove(i, ok))
  {
    var xs, x := v.sys.xs, v.sys.xs[i];
    var y := x.(outPipe := x.outPipe[1..]);
    var z := y.(client := x.client + [x.outPipe[0]]);
    WrittenTwice(xs, i, y, z);
    SameMove(jobs, v, i, ok, z);
  }

  lemma WrittenTwice(xs: seq<Exchange>, i: nat, y: Exchange, z: Exchange)
    requires i < |xs|
    ensures xs[i := y][i := z] == xs[i := z]
  {
  }

  /** A call opens one of these sets or closes at most one descriptor. */
  ghost predicate OneCall(i: nat, e: Effect) {
    && Openable(i, e.opens)
    && (e.shuts == {} || (e.opens == {} && exists end :: e.shuts == {Fd(i, end)}))
  }

  lemma EffectIsOneCall(job: Job, i: nat, x: Exchange, fds: set<Fd>, eof: bool, ok: bool)
    requires WorkerNext(job, i, x, fds, eof, ok).Some?
    ensures OneCall(i, WorkerNext(job, i, x, fds, eof, ok).value)
  {
    var e := WorkerNext(job, i, x, fds, eof, ok).value;
    match x.worker
    case Aborting(todo) =>
      var end := if todo == [] then Client else todo[0];
      assert e.shuts == {Fd(i, end)};
    case Forked => assert e.shuts == {Fd(i, InR)};
    case InRClosed => assert e.shuts == {Fd(i, OutW)};
    case SawEof => assert e.shuts == {Fd(i, InW)};
    case InWClosed => assert e.shuts == {Fd(i, OutR)};
    case Served => assert e.shuts == {Fd(i, Client)};
    case _ =>
  }

  /** One call on the table: it opens what is new, or closes what is open or named by a free number. */
  lemma TableMoves(t: Numbers, i: nat, e: Effect)
    requires Faithful(t.table, t.vars) && OneCall(i, e) && e.opens !! t.vars.Keys
    requires forall fd :: fd in e.shuts ==> fd in t.table.Values || (Target(t.table, t.vars, fd).None?)
    ensures var u := OpenAll(t, i, e.opens);
            var table := CloseAll(u.table, t.vars, e.shuts);
            && table.Values == t.table.Values + e.opens - e.shuts && Faithful(table, u.vars)
            && u.vars.Keys == t.vars.Keys + e.opens
            && forall g :: g in t.vars ==> g in u.vars && u.vars[g] == t.vars[g]
  {
    OpenedAll(t, i, e.opens);
    if e.shuts == {} {
      ClosedNone(OpenAll(t, i, e.opens).table, t.vars);
    } else {
      var end :| e.shuts == {Fd(i, end)};
      ClosedOne(t.table, t.vars, Fd(i, end));
    }
  }

  /** What a move opens is new, and what it closes is what its numbers name, unless a second close
      hits. */
  lemma MoveIsClean(jobs: seq<Job>, v: Server, i: nat, ok: bool, fd: Fd)
    requires Shaped(jobs, v) && Linked(v) && Inv(jobs, v.sys) && i < |jobs| && !Hits(v, WorkerMove(i, ok))
    requires WorkerNext(jobs[i], i, v.sys.xs[i], v.sys.fds, NoWriter(v.sys, i), ok).Some?
    ensures var e := WorkerNext(jobs[i], i, v.sys.xs[i], v.sys.fds, NoWriter(v.sys, i), ok).value;
            && (fd in e.opens ==> fd !in v.vars)
            && (fd in e.shuts ==> fd in v.table.Values || Target(v.table, v.vars, fd).None?)
  {
    EffectOnTable(jobs[i], i, v.sys.xs[i], v.sys.fds, NoWriter(v.sys, i), ok, fd);
    assert TableEntry(v.sys, fd);
  }

  lemma ControlTable(jobs: seq<Job>, v: Server, i: nat, ok: bool)
    requires Shaped(jobs, v) && Linked(v) && Inv(jobs, v.sys) && i < |jobs| && !Hits(v, WorkerMove(i, ok))
    requires WorkerNext(jobs[i], i, v.sys.xs[i], v.sys.fds, NoWriter(v.sys, i), ok).Some?
    ensures var e := WorkerNext(jobs[i], i, v.sys.xs[i], v.sys.fds, NoWriter(v.sys, i), ok).value;
            var t := OpenAll(Numbers(v.table, v.vars), i, e.opens);
            var table := CloseAll(t.table, v.vars, e.shuts);
            && table.Values == v.sys.fds + e.opens - e.shuts && Faithful(table, t.vars)
            && t.vars.Keys == v.sys.created + e.opens
            && forall g :: g in v.vars ==> g in t.vars && t.vars[g] == v.vars[g]
  {
    var e := WorkerNext(jobs[i], i, v.sys.xs[i], v.sys.fds, NoWriter(v.sys, i), ok).value;
    forall fd
      ensures fd in e.opens ==> fd !in v.vars
      ensures fd in e.shuts ==> fd in v.table.Values || Target(v.table, v.vars, fd).None?
    {
      MoveIsClean(jobs, v, i, ok, fd);
    }
    EffectIsOneCall(jobs[i], i, v.sys.xs[i], v.sys.fds, NoWriter(v.sys, i), ok);
    TableMoves(Numbers(v.table, v.vars), i, e);
  }

  lemma KidsStayFaithful(kids: seq<Table>, vars: Vars, vars': Vars)
    requires forall k :: 0 <= k < |kids| ==> Faithful(kids[k], vars)
    requires forall g :: g in vars ==> g in vars' && vars'[g] == vars[g]
    ensures forall k :: 0 <= k < |kids| ==> Faithful(kids[k], vars')
  {
  }

  lemma ControlAgrees(jobs: seq<Job>, v: Server, i: nat, ok: bool)
    requires Shaped(jobs, v) && Linked(v) && Inv(jobs, v.sys) && i < |jobs| && !Hits(v, WorkerMove(i, ok))
    ensures var r, n := WorkerControl(jobs, v, i, ok), Next(jobs, v.sys, WorkerMove(i, ok));
            (r.Some? <==> n.Some?) && (r.Some? ==> r.value.sys == n.value && Linked(r.value))
  {
    var r := WorkerNext(jobs[i], i, v.sys.xs[i], v.sys.fds, NoWriter(v.sys, i), ok);
    if r.Some? {
      ControlTable(jobs, v, i, ok);
      ForkedHeld(jobs[i], i, v.sys.xs[i], v.sys.fds, NoWriter(v.sys, i), ok);
      ControlLinks(jobs, v, i, ok, r.value);
    }
  }

  lemma ControlLinks(jobs: seq<Job>, v: Server, i: nat, ok: bool, e: Effect)
    requires Shaped(jobs, v) && Linked(v) && i < |jobs|
    requires WorkerNext(jobs[i], i, v.sys.xs[i], v.sys.fds, NoWriter(v.sys, i), ok) == Some(e)
    requires e.x.held == if v.sys.xs[i].worker.PipedBoth? && ok then v.sys.fds else v.sys.xs[i].held
    requires var t := OpenAll(Numbers(v.table, v.vars), i, e.opens);
             var table := CloseAll(t.table, v.vars, e.shuts);
             && table.Values == v.sys.fds + e.opens - e.shuts && Faithful(table, t.vars)
             && t.vars.Keys == v.sys.created + e.opens
             && forall g :: g in v.vars ==> g in t.vars && t.vars[g] == v.vars[g]
    ensures Linked(WorkerControl(jobs, v, i, ok).value)
  {
    var v' := WorkerControl(jobs, v, i, ok).value;
    KidsStayFaithful(v.kids, v.vars, v'.vars);
    StaysFaithful(v.table, v.vars, v'.vars);
  }

  lemma ForkedHeld(job: Job, i: nat, x: Exchange, fds: set<Fd>, eof: bool, ok: bool)
    requires WorkerNext(job, i, x, fds, eof, ok).Some?
    ensures WorkerNext(job, i, x, fds, eof, ok).value.x.held == if x.worker.PipedBoth? && ok then fds else x.held
  {
  }

  lemma WorkerAgrees(jobs: seq<Job>, v: Server, i: nat, ok: bool)
    requires Shaped(jobs, v) && Linked(v) && Inv(jobs, v.sys) && i < |jobs| && !Hits(v, WorkerMove(i, ok))
    ensures Agree(jobs, v, WorkerMove(i, ok))
  {
    var w := v.sys.xs[i].worker;
    if w.Accepted? && !jobs[i].refused {
      GreetingAgrees(jobs, v, i, ok);
    } else if w.Relaying? && w.count < jobs[i].length {
      RelayAgrees(jobs, v, i, ok);
    } else if w.Draining? {
      DrainAgrees(jobs, v, i, ok);
    } else {
      ControlAgrees(jobs, v, i, ok);
    }
  }

  lemma ChildResolves(v: Server, i: nat, e: End)
    requires Linked(v) && i < |v.kids| && Fd(i, e) in v.sys.xs[i].held
    ensures Target(v.kids[i], v.vars, Fd(i, e)) == Some(Fd(i, e))
  {
    Resolves(v.kids[i], v.vars, Fd(i, e));
  }

  lemma ChildWriteAgrees(jobs: seq<Job>, v: Server, i: nat, c: Child, b: char)
    requires Shaped(jobs, v) && Linked(v) && i < |jobs|
    ensures var x := v.sys.xs[i];
            var r := Written(v, Write(jobs, WithChild(v.sys.xs, i, c), Some(Fd(i, OutW)), b));
            if |x.outPipe| >= jobs[i].outCap then r == None
            else r.Some? && r.value.sys == v.sys.(xs := v.sys.xs[i := x.(child := c, outPipe := x.outPipe + [b])]) && Linked(r.value)
  {
    var xs, x := v.sys.xs, v.sys.xs[i];
    var z := x.(child := c, outPipe := x.outPipe + [b]);
    assert WithChild(xs, i, c)[i := z] == xs[i := z];
    StillLinked(v, xs[i := z]);
  }

  /** A child that waits for body bytes never meets the end of its input. */
  lemma ChildReadAgrees(jobs: seq<Job>, v: Server, i: nat)
    requires Shaped(jobs, v) && Linked(v) && Inv(jobs, v.sys) && i < |jobs|
    requires v.sys.xs[i].child.Reading? && |v.sys.xs[i].got| < jobs[i].length
    ensures Agree(jobs, v, ChildMove(i))
  {
    var xs, x := v.sys.xs, v.sys.xs[i];
    assert LocalInv(jobs[i], i, x);
    ChildResolves(v, i, InR);
    if x.inPipe != "" {
      var y := x.(inPipe := x.inPipe[1..]);
      var z := y.(got := x.got + [x.inPipe[0]]);
      assert xs[i := y][i := z] == xs[i := z];
      StillLinked(v, xs[i := z]);
    } else {
      InputStaysOpen(jobs, v.sys, i);
    }
  }

  lemma InputStaysOpen(jobs: seq<Job>, s: System, i: nat)
    requires Inv(jobs, s) && i < |jobs| && s.xs[i].child.Reading?
    ensures Fd(i, InW) in s.fds
  {
    assert LocalInv(jobs[i], i, s.xs[i]);
    assert TableEntry(s, Fd(i, InW));
  }

  lemma KidAfterIs(v: Server, i: nat, after: Child)
    requires Linked(v) && i < |v.kids|
    requires v.sys.xs[i].child.Born? ==> Fd(i, InW) in v.sys.xs[i].held
    requires v.sys.xs[i].child.InWShut? ==> Fd(i, OutR) in v.sys.xs[i].held
    ensures var x := v.sys.xs[i];
            var kid := KidAfter(v.kids[i], v.vars, i, x.child, after);
            && Faithful(kid, v.vars)
            && kid.Values == if x.child.Born? then x.held - {Fd(i, InW)}
                             else if x.child.InWShut? then x.held - {Fd(i, OutR)}
                             else if after.Exited? then {} else x.held
  {
    var x := v.sys.xs[i];
    if x.child.Born? {
      ClosedOne(v.kids[i], v.vars, Fd(i, InW));
    } else if x.child.InWShut? {
      ClosedOne(v.kids[i], v.vars, Fd(i, OutR));
    }
  }

  lemma ChildControlAgrees(jobs: seq<Job>, v: Server, i: nat)
    requires Shaped(jobs, v) && Linked(v) && Inv(jobs, v.sys) && i < |jobs|
    ensures var r, n := ChildControl(jobs, v, i), Next(jobs, v.sys, ChildMove(i));
            (r.Some? <==> n.Some?) && (r.Some? ==> r.value.sys == n.value && Linked(r.value))
  {
    var x := v.sys.xs[i];
    assert LocalInv(jobs[i], i, x);
    var r := ChildNext(jobs[i], i, x);
    if r.Some? {
      KidAfterIs(v, i, r.value.child);
      ChildHeldIs(jobs[i], i, x);
    }
  }

  lemma ChildHeldIs(job: Job, i: nat, x: Exchange)
    requires ChildNext(job, i, x).Some?
    ensures var x' := ChildNext(job, i, x).value;
            x'.held == if x.child.Born? then x.held - {Fd(i, InW)}
                       else if x.child.InWShut? then x.held - {Fd(i, OutR)}
                       else if x'.child.Exited? then {} else x.held
  {
  }

  lemma ChildAgrees(jobs: seq<Job>, v: Server, i: nat)
    requires Shaped(jobs, v) && Linked(v) && Inv(jobs, v.sys) && i < |jobs|
    ensures Agree(jobs, v, ChildMove(i))
  {
    var job, x := jobs[i], v.sys.xs[i];
    assert LocalInv(job, i, x);
    if x.child.Flushing? && x.child.done < |job.prefix| {
      ChildResolves(v, i, OutW);
      ChildWriteAgrees(jobs, v, i, Flushing(x.child.done + 1), job.prefix[x.child.done]);
    } else if x.child.Reading? && |x.got| < job.length {
      ChildReadAgrees(jobs, v, i);
    } else if x.child.Answering? && x.child.done < |job.respond(x.got)| {
      ChildResolves(v, i, OutW);
      ChildWriteAgrees(jobs, v, i, Answering(x.child.done + 1), job.respond(x.got)[x.child.done]);
    } else {
      ChildControlAgrees(jobs, v, i);
    }
  }

  /** As long as no second close hits, calls by number do exactly what calls by name do. */
  lemma StepsAgree(jobs: seq<Job>, v: Server, m: Move)
    requires Shaped(jobs, v) && Linked(v) && Inv(jobs, v.sys) && !Hits(v, m)
    ensures Agree(jobs, v, m)
  {
    if m.i < |jobs| {
      if m.WorkerMove? {
        WorkerAgrees(jobs, v, m.i, m.ok);
      } else {
        ChildAgrees(jobs, v, m.i);
      }
    }
  }

  /** A run by number that is not hit is the run by name. */
  lemma {:induction false} Refines(jobs: seq<Job>, moves: seq<Move>)
    requires Unhit(jobs, moves)
    ensures Exec(jobs, moves) == Some(Run(jobs, moves).value.sys)
    ensures Linked(Run(jobs, moves).value) && Inv(jobs, Run(jobs, moves).value.sys)
    decreases |moves|
  {
    if moves == [] {
      InitInv(jobs);
    } else {
      var before, m := moves[..|moves| - 1], moves[|moves| - 1];
      Refines(jobs, before);
      StepsAgree(jobs, Run(jobs, before).value, m);
      RunsKeepInv(jobs, moves);
    }
  }

  /** In such a state the same moves are possible by number and by name. */
  lemma EnabledAlike(jobs: seq<Job>, v: Server, m: Move)
    requires Shaped(jobs, v) && Linked(v) && Inv(jobs, v.sys)
    ensures Step(jobs, v, m).Some? <==> Next(jobs, v.sys, m).Some?
  {
    if !Hits(v, m) {
      StepsAgree(jobs, v, m);
    }
  }

  lemma MaximalAlike(jobs: seq<Job>, v: Server)
    requires Shaped(jobs, v) && Linked(v) && Inv(jobs, v.sys)
    ensures Maximal(jobs, v) <==> Terminal(jobs, v.sys)
  {
    forall m ensures Step(jobs, v, m).Some? <==> Next(jobs, v.sys, m).Some? {
      EnabledAlike(jobs, v, m);
    }
  }

  // ------------------------------------------------------- runs without an error

  ghost predicate ErrorFree(jobs: seq<Job>, moves: seq<Move>) {
    && (forall i :: 0 <= i < |jobs| ==> !jobs[i].refused)
    && (forall k :: 0 <= k < |moves| && moves[k].WorkerMove? ==> moves[k].ok)
  }

  /** Without an error of a worker no second close hits, and the runs by number and by name are the
      same. */
  lemma {:induction false} ErrorFreeIsUnhit(jobs: seq<Job>, moves: seq<Move>)
    requires ErrorFree(jobs, moves)
    ensures Run(jobs, moves).Some? <==> Exec(jobs, moves).Some?
    ensures Run(jobs, moves).Some? ==> Unhit(jobs, moves)
    decreases |moves|
  {
    if moves != [] {
      var before, m := moves[..|moves| - 1], moves[|moves| - 1];
      ErrorFreeIsUnhit(jobs, before);
      if Run(jobs, before).Some? {
        Refines(jobs, before);
        if m.i < |jobs| { NoFailedCalls(jobs, before, m.i); }
        StepsAgree(jobs, Run(jobs, before).value, m);
      }
    }
  }

  // --------------------------------------------------- what a second close does

  /** A descriptor that its worker holds is gone from the table. */
  ghost predicate Robbed(s: System, fd: Fd) {
    fd.exchange < |s.xs| && Holds(s.xs[fd.exchange].worker, fd.end) && fd !in s.fds
  }

  /** A second close that hits shuts a descriptor of another exchange. */
  lemma HitRobs(jobs: seq<Job>, v: Server, m: Move) returns (victim: Fd)
    requires Shaped(jobs, v) && Linked(v) && Inv(jobs, v.sys) && Hits(v, m)
    ensures Step(jobs, v, m).Some? && victim.exchange != m.i
    ensures Robbed(Step(jobs, v, m).value.sys, victim)
  {
    var i := m.i;
    victim := Target(v.table, v.vars, Fd(i, Client)).value;
    assert victim in v.table.Values;
    assert TableEntry(v.sys, victim);
    ClosedAnother(v.table, v.vars, Fd(i, Client), victim);
  }

  lemma ClosedAnother(table: Table, vars: Vars, fd: Fd, victim: Fd)
    requires Faithful(table, vars) && Target(table, vars, fd) == Some(victim)
    ensures victim !in CloseAll(table, vars, {fd}).Values
  {
    assert vars[fd] in NumbersOf(vars, {fd});
    assert forall n :: n in CloseAll(table, vars, {fd}) ==> table[n] != victim;
  }

  /** The table is what the workers take it for, throughout the run. */
  ghost predicate Intact(jobs: seq<Job>, moves: seq<Move>)
    decreases |moves|
  {
    && Run(jobs, moves).Some? && TableInv(Run(jobs, moves).value.sys)
    && (moves != [] ==> Intact(jobs, moves[..|moves| - 1]))
  }

  /** The table stays what the workers take it for exactly as long as no second close hits. */
  lemma {:induction false} IntactExact(jobs: seq<Job>, moves: seq<Move>)
    ensures Intact(jobs, moves) <==> Unhit(jobs, moves)
    decreases |moves|
  {
    if Unhit(jobs, moves) { Refines(jobs, moves); }
    if moves != [] {
      var before, m := moves[..|moves| - 1], moves[|moves| - 1];
      IntactExact(jobs, before);
      if Unhit(jobs, before) && Hits(Run(jobs, before).value, m) {
        Refines(jobs, before);
        var victim := HitRobs(jobs, Run(jobs, before).value, m);
        assert !TableEntry(Run(jobs, moves).value.sys, victim);
      }
    }
  }

  // -------------------------------------------------------- such runs exist

  /** A request is accepted and meets an error of its worker: it is refused or its first `pipe` fails. */
  function ErrorMoves(job: Job, i: nat): seq<Move> {
    if job.refused then [WorkerMove(i, true), WorkerMove(i, true)]
    else [WorkerMove(i, true), WorkerMove(i, true), WorkerMove(i, false)]
  }

  lemma RunMore(jobs: seq<Job>, moves: seq<Move>, m: Move)
    requires Run(jobs, moves).Some?
    ensures Run(jobs, moves + [m]) == Step(jobs, Run(jobs, moves).value, m)
  {
    assert (moves + [m])[..|moves|] == moves;
  }

  /** Only request `i` has moved, and its number is the first. */
  ghost predicate Alone(jobs: seq<Job>, v: Server, i: nat, w: Worker, open: bool) {
    && Shaped(jobs, v) && i < |jobs| && v.sys.xs[i].worker == w && v.sys.xs[i].held == {}
    && v.table == (if open then map[0 := Fd(i, Client)] else map[])
    && v.vars == map[Fd(i, Client) := 0]
    && forall k :: 0 <= k < |jobs| && k != i ==> v.sys.xs[k].worker.Idle? && v.sys.xs[k] == Boot(jobs).sys.xs[k]
  }

  lemma FirstAccept(jobs: seq<Job>, i: nat)
    requires i < |jobs|
    ensures var r := Step(jobs, Boot(jobs), WorkerMove(i, true)); r.Some? && Alone(jobs, r.value, i, Accepted, true)
  {
    var v := Boot(jobs);
    ClosedNone(OpenAll(Numbers(v.table, v.vars), i, {Fd(i, Client)}).table, v.vars);
    assert FirstFree({}, 0) == 0;
  }

  lemma Refuses(jobs: seq<Job>, v: Server, i: nat)
    requires Alone(jobs, v, i, Accepted, true) && jobs[i].refused
    ensures var r := Step(jobs, v, WorkerMove(i, true)); r.Some? && Alone(jobs, r.value, i, Aborting([Client]), true)
  {
    ClosedNone(v.table, v.vars);
  }

  lemma Greets(jobs: seq<Job>, v: Server, i: nat)
    requires Alone(jobs, v, i, Accepted, true) && !jobs[i].refused
    ensures var r := Step(jobs, v, WorkerMove(i, true)); r.Some? && Alone(jobs, r.value, i, Start, true)
  {
  }

  lemma Fails(jobs: seq<Job>, v: Server, i: nat)
    requires Alone(jobs, v, i, Start, true)
    ensures var r := Step(jobs, v, WorkerMove(i, false)); r.Some? && Alone(jobs, r.value, i, Aborting([Client]), true)
  {
    ClosedNone(v.table, v.vars);
  }

  lemma Closes(jobs: seq<Job>, v: Server, i: nat)
    requires Alone(jobs, v, i, Aborting([Client]), true)
    ensures var r := Step(jobs, v, WorkerMove(i, true)); r.Some? && Alone(jobs, r.value, i, Aborting([]), false)
  {
    assert [Client][1..] == [];
    assert NumbersOf(v.vars, {Fd(i, Client)}) == {0};
    assert CloseAll(v.table, v.vars, {Fd(i, Client)}) == map[];
  }

  lemma AfterAccept(jobs: seq<Job>, i: nat)
    requires i < |jobs|
    ensures var r := Run(jobs, [WorkerMove(i, true)]); r.Some? && Alone(jobs, r.value, i, Accepted, true)
  {
    var w := WorkerMove(i, true);
    FirstAccept(jobs, i);
    RunMore(jobs, [], w);
    assert [] + [w] == [w];
  }

  lemma AfterGreeting(jobs: seq<Job>, i: nat)
    requires i < |jobs|
    ensures var w := WorkerMove(i, true);
            var r := Run(jobs, [w, w]);
            r.Some? && Alone(jobs, r.value, i, if jobs[i].refused then Aborting([Client]) else Start, true)
  {
    var w := WorkerMove(i, true);
    AfterAccept(jobs, i);
    RunMore(jobs, [w], w);
    assert [w] + [w] == [w, w];
    if jobs[i].refused {
      Refuses(jobs, Run(jobs, [w]).value, i);
    } else {
      Greets(jobs, Run(jobs, [w]).value, i);
    }
  }

  lemma AfterError(jobs: seq<Job>, i: nat)
    requires i < |jobs|
    ensures var r := Run(jobs, ErrorMoves(jobs[i], i)); r.Some? && Alone(jobs, r.value, i, Aborting([Client]), true)
  {
    AfterGreeting(jobs, i);
    if !jobs[i].refused {
      var greeted, f := [WorkerMove(i, true), WorkerMove(i, true)], WorkerMove(i, false);
      Fails(jobs, Run(jobs, greeted).value, i);
      RunMore(jobs, greeted, f);
      assert greeted + [f] == ErrorMoves(jobs[i], i);
    }
  }

  /** The client of `j` has been accepted under the number that the worker of `i` is about to close
      again. */
  ghost predicate Reused(jobs: seq<Job>, v: Server, i: nat, j: nat) {
    && Shaped(jobs, v) && i < |jobs| && j < |jobs| && i != j
    && v.sys.xs[i].worker == Aborting([])
    && v.sys.xs[j] == Boot(jobs).sys.xs[j].(worker := Accepted)
    && v.table == map[0 := Fd(j, Client)]
    && v.vars == map[Fd(i, Client) := 0, Fd(j, Client) := 0] && Fd(j, Client) in v.sys.created
    && forall k :: 0 <= k < |jobs| ==> v.sys.xs[k].held == {}
  }

  lemma SecondAccept(jobs: seq<Job>, v: Server, i: nat, j: nat)
    requires Alone(jobs, v, i, Aborting([]), false) && j < |jobs| && j != i
    ensures var r := Step(jobs, v, WorkerMove(j, true)); r.Some? && Reused(jobs, r.value, i, j)
  {
    ClosedNone(OpenAll(Numbers(v.table, v.vars), j, {Fd(j, Client)}).table, v.vars);
    assert FirstFree({}, 0) == 0;
  }

  /** The connection of `j` is gone although its worker has done nothing yet. */
  ghost predicate CutOff(jobs: seq<Job>, v: Server, j: nat) {
    && Shaped(jobs, v) && j < |jobs|
    && v.table == map[] && v.sys.fds == {} && Fd(j, Client) in v.sys.created
    && v.sys.xs[j] == Boot(jobs).sys.xs[j].(worker := Accepted)
    && forall k :: 0 <= k < |jobs| ==> v.sys.xs[k].held == {}
  }

  lemma SecondCloseCuts(jobs: seq<Job>, v: Server, i: nat, j: nat)
    requires Reused(jobs, v, i, j)
    ensures Hits(v, WorkerMove(i, true))
    ensures var r := Step(jobs, v, WorkerMove(i, true)); r.Some? && CutOff(jobs, r.value, j)
  {
    assert NumbersOf(v.vars, {Fd(i, Client)}) == {0};
    assert CloseAll(v.table, v.vars, {Fd(i, Client)}) == map[];
  }

  /** For any two requests there is a run in which the error of one cuts off the client of the other:
      accepted between the two closes, it gets the number that the second one closes. If the first
      request is refused, no call fails. */
  lemma {:induction false} ErrorCutsOffAnother(jobs: seq<Job>, i: nat, j: nat) returns (moves: seq<Move>)
    requires i < |jobs| && j < |jobs| && i != j
    ensures Run(jobs, moves).Some? && CutOff(jobs, Run(jobs, moves).value, j) && EndSeen(Run(jobs, moves).value.sys, j)
    ensures moves != [] && Run(jobs, moves[..|moves| - 1]).Some?
    ensures Hits(Run(jobs, moves[..|moves| - 1]).value, moves[|moves| - 1]) && !Unhit(jobs, moves)
    ensures jobs[i].refused ==> forall k :: 0 <= k < |moves| && moves[k].WorkerMove? ==> moves[k].ok
  {
    var w, w' := WorkerMove(i, true), WorkerMove(j, true);
    var m0 := ErrorMoves(jobs[i], i);
    AfterError(jobs, i);
    Closes(jobs, Run(jobs, m0).value, i);
    RunMore(jobs, m0, w);
    SecondAccept(jobs, Run(jobs, m0 + [w]).value, i, j);
    RunMore(jobs, m0 + [w], w');
    var m1 := m0 + [w] + [w'];
    SecondCloseCuts(jobs, Run(jobs, m1).value, i, j);
    RunMore(jobs, m1, w);
    moves := m1 + [w];
    assert moves[..|moves| - 1] == m1;
  }

  /** After that the results above fail: the worker of `j` sends its status line nowhere, and the bytes
      of its response are no longer all accounted for. */
  lemma {:induction false} ResponseIsLost(jobs: seq<Job>, i: nat, j: nat) returns (moves: seq<Move>)
    requires i < |jobs| && j < |jobs| && i != j && !jobs[j].refused
    ensures Run(jobs, moves).Some?
    ensures var job, x := jobs[j], Run(jobs, moves).value.sys.xs[j];
            && x.worker == Start && x.client == ""
            && x.client + Unsent(job, x.worker) + x.outPipe + ToWrite(job, job.Body(), x) != STATUS_LINE + job.Output()
    ensures jobs[i].refused ==> forall k :: 0 <= k < |moves| && moves[k].WorkerMove? ==> moves[k].ok
  {
    var cut := ErrorCutsOffAnother(jobs, i, j);
    RunMore(jobs, cut, WorkerMove(j, true));
    moves := cut + [WorkerMove(j, true)];
    var job, x := jobs[j], Run(jobs, moves).value.sys.xs[j];
    assert x == Boot(jobs).sys.xs[j].(worker := Start);
    assert |x.client + Unsent(job, x.worker) + x.outPipe + ToWrite(job, job.Body(), x)| == |job.prefix + job.respond(job.Body())|;
  }

  // ------------------------------------- the results by name, for runs by number

  /** In every run that is not hit no byte is lost, duplicated or reordered. */
  lemma {:induction false} UnhitConservation(jobs: seq<Job>, moves: seq<Move>, i: nat)
    requires Unhit(jobs, moves) && i < |jobs|
    ensures var job, x := jobs[i], Run(jobs, moves).value.sys.xs[i];
            && Sent(job, x.worker) <= job.length
            && x.got + x.inPipe + job.Body()[Sent(job, x.worker)..] == job.Body()
            && x.client + Unsent(job, x.worker) + x.outPipe + ToWrite(job, job.Body(), x) == STATUS_LINE + job.Output()
            && |x.inPipe| <= job.inCap && |x.outPipe| <= job.outCap
  {
    Refines(jobs, moves);
    Conservation(jobs, moves, i);
  }

  /** ... nobody writes to a pipe without a reader or waits for bytes that cannot come ... */
  lemma {:induction false} UnhitPeersStayConnected(jobs: seq<Job>, moves: seq<Move>, i: nat)
    requires Unhit(jobs, moves) && i < |jobs|
    ensures var s := Run(jobs, moves).value.sys;
            var job, x := jobs[i], s.xs[i];
            && (x.worker.Relaying? && x.worker.count < job.length ==> Fd(i, InR) in x.held)
            && (x.child.Flushing? || x.child.Answering? ==> Fd(i, OutR) in s.fds)
            && (x.child.Reading? && |x.got| < job.length ==> Fd(i, InW) in s.fds)
  {
    Refines(jobs, moves);
    PeersStayConnected(jobs, moves, i);
  }

  /** ... every close but the second one of a failed worker closes its own descriptor ... */
  lemma {:induction false} UnhitDescriptors(jobs: seq<Job>, moves: seq<Move>, fd: Fd)
    requires Unhit(jobs, moves) && fd.exchange < |jobs|
    ensures var s := Run(jobs, moves).value.sys;
            var w := s.xs[fd.exchange].worker;
            && (fd in s.fds <==> Holds(w, fd.end))
            && (fd in s.fds ==> Target(Run(jobs, moves).value.table, Run(jobs, moves).value.vars, fd) == Some(fd))
            && s.closes[fd] <= (if fd.end.Client? then 2 else 1)
            && (Over(w) ==> s.closes[fd] == if fd !in s.created then 0 else if fd.end.Client? && w.Failed? then 2 else 1)
  {
    Refines(jobs, moves);
    DescriptorDiscipline(jobs, moves, fd);
    assert TableEntry(Run(jobs, moves).value.sys, fd);
    if fd in Run(jobs, moves).value.sys.fds {
      Resolves(Run(jobs, moves).value.table, Run(jobs, moves).value.vars, fd);
    }
  }

  /** ... and where maximal runs end is decided by what fits and by what was inherited. */
  lemma {:induction false} UnhitMaximalRuns(jobs: seq<Job>, moves: seq<Move>, j: nat)
    requires forall i :: 0 <= i < |jobs| ==> jobs[i].Valid()
    requires Unhit(jobs, moves) && Maximal(jobs, Run(jobs, moves).value) && j < |jobs|
    ensures var s := Run(jobs, moves).value.sys;
            && ((forall i :: 0 <= i < |jobs| ==> Over(s.xs[i].worker))
                <==> (forall i :: 0 <= i < |jobs| ==> s.xs[i].child.Unborn? || jobs[i].Fits()))
            && (!s.xs[j].child.Unborn? ==>
                  (s.xs[j].worker.Finished?
                   <==> jobs[j].Fits() && forall i :: 0 <= i < |jobs| && !jobs[i].Fits() ==> Fd(j, OutW) !in s.xs[i].held))
            && (EndSeen(s, j) <==> Over(s.xs[j].worker)
                                   && forall i :: 0 <= i < |jobs| && !jobs[i].Fits() ==> Fd(j, Client) !in s.xs[i].held)
  {
    Refines(jobs, moves);
    MaximalAlike(jobs, Run(jobs, moves).value);
    MaximalRuns(jobs, moves);
    WhoSeesTheEnd(jobs, moves, j);
    if !Run(jobs, moves).value.sys.xs[j].child.Unborn? {
      WhoFinishes(jobs, moves, j);
    }
  }

  /** When every exchange fits and there is no error, every maximal run by number serves every client
      completely and leaves nothing open in the server. */
  lemma {:induction false} EveryoneIsServedByNumber(jobs: seq<Job>, moves: seq<Move>)
    requires forall i :: 0 <= i < |jobs| ==> jobs[i].Valid() && jobs[i].Fits()
    requires ErrorFree(jobs, moves) && Run(jobs, moves).Some? && Maximal(jobs, Run(jobs, moves).value)
    ensures var v := Run(jobs, moves).value;
            && v.table == map[]
            && forall i :: 0 <= i < |jobs| ==>
                 && v.sys.xs[i].worker.Finished? && EndSeen(v.sys, i)
                 && v.sys.xs[i].client == STATUS_LINE + jobs[i].Output() && v.sys.xs[i].got == jobs[i].Body()
  {
    ErrorFreeIsUnhit(jobs, moves);
    Refines(jobs, moves);
    MaximalAlike(jobs, Run(jobs, moves).value);
    EveryoneIsServed(jobs, moves);
    NoValues(Run(jobs, moves).value.table);
  }

  lemma NoValues(table: Table)
    requires table.Values == {}
    ensures table == map[]
  {
    assert forall n :: n in table ==> table[n] in table.Values;
  }
}
