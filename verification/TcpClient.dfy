/**
  The reconnecting TCP client, alone and together with its Handler, over every interleaving of user
  calls, socket events and timer firings.
*/
module TcpClient {
  import opened HandlerState
  import opened Wrappers

  /** What an IO emits. */
  datatype Signal = Control(c: Control) | Data(p: Packet)

  // ---------------------------------------------------------------------------------------------
  // The IO
  // ---------------------------------------------------------------------------------------------

  /** Sockets are numbered in the order they are created.  `wired` are the sockets whose signals are
      connected to the IO, `timers` the pending single-shot reconnects, `handed` the bytes passed to
      a socket's write. */
  datatype Client = Client(
    reconnect: bool, socket: Option<nat>, wired: set<nat>, created: nat, destroyed: nat, timers: nat,
    statRead: int, statWritten: int, handed: int)

  function NewClient(reconnect: bool): Client
  {
    Client(reconnect, None, {}, 0, 0, 0, 0, 0, 0)
  }

  function Closed(io: Client): Client
  {
    match io.socket
    case None => io
    case Some(s) => io.(socket := None, wired := io.wired - {s}, destroyed := io.destroyed + 1)
  }

  function Connected(io: Client): Client
  {
    var c := Closed(io);
    c.(socket := Some(c.created), wired := c.wired + {c.created}, created := c.created + 1)
  }

  function DataSignals(chunks: seq<Packet>): (r: seq<Signal>)
    ensures |r| == |chunks| && forall i :: 0 <= i < |r| ==> r[i] == Data(chunks[i])
  {
    seq(|chunks|, i requires 0 <= i < |chunks| => Data(chunks[i]))
  }

  ghost predicate OneSocket(io: Client)
  {
    && io.wired == (if io.socket.Some? then {io.socket.value} else {})
    && (io.socket.Some? ==> io.socket.value == io.created - 1)
    && io.destroyed == io.created - (if io.socket.Some? then 1 else 0)
  }

  class TcpSocketIO {
    const reconnect: bool
    var socket: Option<nat>
    var bytesRead: int
    var bytesWritten: int

    ghost var wired: set<nat>
    ghost var destroyed: nat
    ghost var timers: nat
    ghost var handed: int
    var created: nat

    ghost function GetClient(): Client
      reads this
    {
      Client(reconnect, socket, wired, created, destroyed, timers, bytesRead, bytesWritten, handed)
    }

    /** Only the current socket is connected to the IO, and all earlier ones are destroyed. */
    ghost predicate Valid()
      reads this
    {
      OneSocket(GetClient())
    }

    constructor (reconnect: bool)
      ensures Valid() && GetClient() == NewClient(reconnect)
    {
      this.reconnect, socket, wired, created, destroyed, timers := reconnect, None, {}, 0, 0, 0;
      bytesRead, bytesWritten, handed := 0, 0, 0;
    }

    method Start() returns (signals: seq<Signal>)
      requires Valid()
      modifies this
      ensures Valid() && GetClient() == Connected(old(GetClient()))
      ensures socket == Some(old(created)) && wired == {old(created)}
      ensures destroyed == old(created) && created == old(created) + 1
      ensures signals == [Control(IoStarted)]
    {
      ConnectToRemote();
      signals := [Control(IoStarted)];
    }

    /** Afterwards there is no socket, no connection to one, and every socket ever made is destroyed. */
    method Stop()
      requires Valid()
      modifies this
      ensures Valid() && GetClient() == Closed(old(GetClient()))
      ensures socket == None && wired == {} && destroyed == created == old(created)
    {
      if socket.Some? {
        wired := wired - {socket.value};
        destroyed := destroyed + 1;
        socket := None;
      }
    }

    /** Also the slot of the reconnect timer.  Afterwards there is one socket, a new one, and it alone is
        connected; every earlier one is destroyed. */
    method ConnectToRemote()
      requires Valid()
      modifies this
      ensures Valid() && GetClient() == Connected(old(GetClient()))
      ensures socket == Some(old(created)) && wired == {old(created)}
      ensures destroyed == old(created) && created == old(created) + 1
    {
      Stop();
      socket := Some(created);
      wired := wired + {created};
      created := created + 1;
    }

    /** `connected` is the socket's state, `written` what its write returns, `message` the text that
        reports a short write. */
    method WriteData(p: Packet, connected: bool, written: int, message: string) returns (signals: seq<Signal>)
      requires Valid()
      modifies this
      ensures Valid() && GetClient() == Written(old(GetClient()), p, connected, written)
      ensures handed == old(handed) + if old(socket).Some? && connected then |p| else 0
      ensures bytesWritten == old(bytesWritten) + if old(socket).Some? && connected && written == |p| then |p| else 0
      ensures 0 <= bytesWritten - old(bytesWritten) <= handed - old(handed) <= |p|
      ensures signals == [] ==> bytesWritten - old(bytesWritten) == handed - old(handed)
      ensures signals != [] ==> bytesWritten == old(bytesWritten)
      ensures signals == if old(socket).Some? && connected && written != |p| then [Control(IoError(message))] else []
    {
      if socket == None || !connected {
        return [];
      }
      handed := handed + |p|;
      if written != |p| {
        return [Control(IoError(message))];
      }
      bytesWritten := bytesWritten + written;
      return [];
    }

    /** Reads the socket's error text, so there has to be a socket. */
    method OnSocketErrorOccured(message: string) returns (signals: seq<Signal>)
      requires Valid() && socket.Some?
      modifies this
      ensures Valid() && GetClient() == Retried(old(GetClient()))
      ensures signals == [Control(IoError(message))]
    {
      signals := [Control(IoError(message))];
      if reconnect {
        timers := timers + 1;
      }
    }

    /** `chunks` are what successive reads return while bytes are available. */
    method OnSocketReadyRead(chunks: seq<Packet>) returns (signals: seq<Signal>)
      requires socket.Some?
      modifies this
      ensures GetClient() == old(GetClient()).(statRead := old(bytesRead) + TotalBytes(chunks))
      ensures signals == DataSignals(chunks)
    {
      signals := [];
      for n := 0 to |chunks|
        invariant GetClient() == old(GetClient()).(statRead := old(bytesRead) + TotalBytes(chunks[..n]))
        invariant signals == DataSignals(chunks[..n])
      {
        bytesRead := bytesRead + |chunks[n]|;
        signals := signals + [Data(chunks[n])];
        assert chunks[..n + 1][..n] == chunks[..n];
      }
      assert chunks[..|chunks|] == chunks;
    }
  }

  function Written(io: Client, p: Packet, connected: bool, written: int): Client
  {
    if io.socket == None || !connected then io
    else if written != |p| then io.(handed := io.handed + |p|)
    else io.(handed := io.handed + |p|, statWritten := io.statWritten + written)
  }

  function Retried(io: Client): Client
  {
    if io.reconnect then io.(timers := io.timers + 1) else io
  }

  // ---------------------------------------------------------------------------------------------
  // The IO and its Handler
  // ---------------------------------------------------------------------------------------------

  /** One Handler with one TcpSocketIO. */
  datatype Pair = Pair(h: View, io: Client)

  datatype Event =
    | StartHandler
    | StopHandler
    | Write(p: Packet, connected: bool, written: int, message: string)
    | SocketError(socket: nat, message: string)
    | ReadyRead(socket: nat, chunks: seq<Packet>)
    | TimerFires

  /** A socket event reaches the IO only over a connection; a timer fires only if it is pending. */
  predicate Possible(s: Pair, e: Event)
  {
    match e
    case SocketError(socket, _) => socket in s.io.wired
    case ReadyRead(socket, _) => socket in s.io.wired
    case TimerFires => s.io.timers > 0
    case _ => true
  }

  function HandlerWrites(s: Pair, p: Packet, connected: bool, written: int, message: string): Pair
  {
    if s.h.status.state != Started then s
    else
      var failed := s.io.socket.Some? && connected && written != |p|;
      var status := if failed then Raise(s.h.status, [IoError(message)], s.h.controls) else s.h.status;
      Pair(s.h.(status := status, written := s.h.written + |p|, sent := s.h.sent + [p]),
           Written(s.io, p, connected, written))
  }

  function Step(s: Pair, e: Event): Pair
    requires Possible(s, e)
  {
    match e
    case StartHandler => Pair(Start(s.h, [IoStarted]), Connected(s.io))
    case StopHandler => Pair(Stop(s.h), Closed(s.io))
    case Write(p, connected, written, message) => HandlerWrites(s, p, connected, written, message)
    case SocketError(_, message) =>
      Pair(s.h.(status := Raise(s.h.status, [IoError(message)], s.h.controls)), Retried(s.io))
    case ReadyRead(_, chunks) =>
      Pair(if s.h.relay then s.h.(read := s.h.read + TotalBytes(chunks)) else s.h,
           s.io.(statRead := s.io.statRead + TotalBytes(chunks)))
    case TimerFires => Pair(s.h, Connected(s.io.(timers := s.io.timers - 1)))
  }

  /** The pair after a run from its creation, if every event was possible. */
  function Exec(name: string, reconnect: bool, es: seq<Event>): Option<Pair>
    decreases |es|
  {
    if es == [] then Some(Pair(Created(name, false), NewClient(reconnect)))
    else
      match Exec(name, reconnect, es[..|es| - 1])
      case None => None
      case Some(s) => if Possible(s, es[|es| - 1]) then Some(Step(s, es[|es| - 1])) else None
  }

  function Starts(es: seq<Event>): nat
    decreases |es|
  {
    if es == [] then 0 else Starts(es[..|es| - 1]) + if es[|es| - 1].StartHandler? then 1 else 0
  }

  function Errors(es: seq<Event>): nat
    decreases |es|
  {
    if es == [] then 0 else Errors(es[..|es| - 1]) + if es[|es| - 1].SocketError? then 1 else 0
  }

  function Firings(es: seq<Event>): nat
    decreases |es|
  {
    if es == [] then 0 else Firings(es[..|es| - 1]) + if es[|es| - 1].TimerFires? then 1 else 0
  }

  // ---------------------------------------------------------------------------------------------
  // Sockets
  // ---------------------------------------------------------------------------------------------

  /** What `starts` starts, `errors` socket errors and `firings` timer firings leave behind. */
  ghost predicate Accounted(io: Client, starts: nat, errors: nat, firings: nat)
  {
    && OneSocket(io)
    && io.created == starts + firings
    && io.timers == (if io.reconnect then errors else 0) - firings
  }

  lemma StepAccounted(s: Pair, e: Event, starts: nat, errors: nat, firings: nat)
    requires Accounted(s.io, starts, errors, firings) && Possible(s, e)
    ensures Accounted(Step(s, e).io, starts + (if e.StartHandler? then 1 else 0),
                      errors + (if e.SocketError? then 1 else 0), firings + (if e.TimerFires? then 1 else 0))
  {
  }

  /** Over all runs: at most one socket is live, exactly the live socket is connected to the IO (so a
      delivered event finds m_socket set), every start and every firing created one socket, all but the
      live one are destroyed, and the timers pending are the errors that have not been retried yet. */
  lemma {:induction false} ReconnectAccounting(name: string, reconnect: bool, es: seq<Event>)
    requires Exec(name, reconnect, es).Some?
    ensures Accounted(Exec(name, reconnect, es).value.io, Starts(es), Errors(es), Firings(es))
    ensures Exec(name, reconnect, es).value.io.reconnect == reconnect
    decreases |es|
  {
    if es != [] {
      var before := es[..|es| - 1];
      ReconnectAccounting(name, reconnect, before);
      StepAccounted(Exec(name, reconnect, before).value, es[|es| - 1], Starts(before), Errors(before), Firings(before));
    }
  }

  /** No socket and no timer, and `created` sockets made and destroyed. */
  ghost predicate Idle(io: Client, created: nat)
  {
    io.socket == None && io.wired == {} && io.timers == 0 && io.created == io.destroyed == created
  }

  lemma IdleStep(s: Pair, e: Event, created: nat)
    requires Idle(s.io, created) && Possible(s, e) && !e.StartHandler?
    ensures Idle(Step(s, e).io, created)
  {
  }

  /** After a stop with no timer pending there is no socket, and none is made, until the next start. */
  lemma {:induction false} StoppedMeansNoSocket(name: string, reconnect: bool, es: seq<Event>, more: seq<Event>)
    requires Exec(name, reconnect, es + [StopHandler] + more).Some?
    requires Exec(name, reconnect, es).Some? && Exec(name, reconnect, es).value.io.timers == 0
    requires Starts(more) == 0
    ensures Idle(Exec(name, reconnect, es + [StopHandler] + more).value.io, Exec(name, reconnect, es).value.io.created)
    decreases |more|
  {
    var all := es + [StopHandler] + more;
    if more == [] {
      assert all[..|all| - 1] == es && all[|all| - 1] == StopHandler;
      ReconnectAccounting(name, reconnect, es);
    } else {
      var before := es + [StopHandler] + more[..|more| - 1];
      assert all[..|all| - 1] == before && all[|all| - 1] == more[|more| - 1];
      StoppedMeansNoSocket(name, reconnect, es, more[..|more| - 1]);
      IdleStep(Exec(name, reconnect, before).value, more[|more| - 1], Exec(name, reconnect, es).value.io.created);
    }
  }

  /** For every run: no continuation without a start has a socket after a stop, if and only if no
      reconnect is pending at the stop. */
  lemma {:induction false} NoSocketAfterStopExactly(name: string, reconnect: bool, es: seq<Event>)
    requires Exec(name, reconnect, es).Some?
    ensures (forall more :: Exec(name, reconnect, es + [StopHandler] + more).Some? && Starts(more) == 0 ==>
               Exec(name, reconnect, es + [StopHandler] + more).value.io.socket == None) <==>
            Exec(name, reconnect, es).value.io.timers == 0
  {
    if Exec(name, reconnect, es).value.io.timers == 0 {
      forall more | Exec(name, reconnect, es + [StopHandler] + more).Some? && Starts(more) == 0
        ensures Exec(name, reconnect, es + [StopHandler] + more).value.io.socket == None
      {
        StoppedMeansNoSocket(name, reconnect, es, more);
      }
    } else {
      var stopped := es + [StopHandler];
      var all := stopped + [TimerFires];
      assert stopped[..|stopped| - 1] == es && all[..|all| - 1] == stopped;
      assert Starts([TimerFires]) == 0;
      var s := Exec(name, reconnect, es).value;
      assert Exec(name, reconnect, stopped) == Some(Step(s, StopHandler));
      assert Exec(name, reconnect, all) == Some(Step(Step(s, StopHandler), TimerFires));
    }
  }

  // ---------------------------------------------------------------------------------------------
  // A failed handler
  // ---------------------------------------------------------------------------------------------

  lemma RaisedError(s: Status, message: string, controls: nat)
    ensures controls == 0 ==> Raise(s, [IoError(message)], controls) == s
    ensures controls > 0 ==> Raise(s, [IoError(message)], controls).state == Failed
  {
  }

  /** In a run with at most one start: a pending reconnect, or a socket nobody listens to any more,
      means that the handler has failed; before the start there is neither. */
  lemma {:induction false} PendingReconnectMeansFailed(name: string, reconnect: bool, es: seq<Event>)
    requires Exec(name, reconnect, es).Some? && Starts(es) <= 1
    ensures var s := Exec(name, reconnect, es).value;
            && (s.io.timers > 0 ==> s.h.status.state == Failed)
            && (s.io.socket.Some? && s.h.controls == 0 ==> s.h.status.state == Failed)
            && (Starts(es) == 0 ==> s.io.socket == None && s.io.timers == 0 && s.h.controls == 0)
    decreases |es|
  {
    if es != [] {
      var before, e := es[..|es| - 1], es[|es| - 1];
      PendingReconnectMeansFailed(name, reconnect, before);
      ReconnectAccounting(name, reconnect, before);
      var s := Exec(name, reconnect, before).value;
      match e
      case SocketError(_, m) => RaisedError(s.h.status, m, s.h.controls);
      case Write(_, _, _, m) => RaisedError(s.h.status, m, s.h.controls);
      case _ =>
    }
  }

  lemma {:induction false} PrefixRuns(name: string, reconnect: bool, es: seq<Event>, k: nat)
    requires Exec(name, reconnect, es).Some? && k <= |es|
    ensures Exec(name, reconnect, es[..k]).Some?
    ensures k < |es| ==> Possible(Exec(name, reconnect, es[..k]).value, es[k])
    decreases |es|
  {
    if k == |es| {
      assert es[..k] == es;
    } else {
      var n := |es| - 1;
      if k < n {
        PrefixRuns(name, reconnect, es[..n], k);
        assert es[..n][..k] == es[..k];
      }
    }
  }

  /** The state after the first `k` events of a run. */
  ghost function At(name: string, reconnect: bool, es: seq<Event>, k: nat): Pair
    requires Exec(name, reconnect, es).Some? && k <= |es|
  {
    PrefixRuns(name, reconnect, es, k);
    Exec(name, reconnect, es[..k]).value
  }

  lemma {:induction false} AtNext(name: string, reconnect: bool, es: seq<Event>, k: nat)
    requires Exec(name, reconnect, es).Some? && k < |es|
    ensures Possible(At(name, reconnect, es, k), es[k])
    ensures At(name, reconnect, es, k + 1) == Step(At(name, reconnect, es, k), es[k])
  {
    PrefixRuns(name, reconnect, es, k);
    PrefixRuns(name, reconnect, es, k + 1);
    assert es[..k + 1][..k] == es[..k];
  }

  /** A pending reconnect, or a socket nobody listens to any more, means that the handler has failed. */
  ghost predicate Calm(s: Pair)
  {
    && OneSocket(s.io)
    && (s.io.timers > 0 ==> s.h.status.state == Failed)
    && (s.io.socket.Some? && s.h.controls == 0 ==> s.h.status.state == Failed)
  }

  lemma {:induction false} StartedByStart(s: Status, controls: nat)
    requires controls > 0
    ensures Raise(s, [IoStarted], controls).state == Started
  {
    assert Raise(s, [], controls) == s;
    DuplicatesAreOne(s, IoStarted, controls);
  }

  lemma {:induction false} StepCalm(s: Pair, e: Event)
    requires Calm(s) && Possible(s, e) && (e.StartHandler? ==> s.io.timers == 0)
    ensures Calm(Step(s, e))
  {
    match e
    case SocketError(_, m) => RaisedError(s.h.status, m, s.h.controls);
    case Write(_, _, _, m) => RaisedError(s.h.status, m, s.h.controls);
    case _ =>
  }

  lemma {:induction false} StaysCalm(name: string, reconnect: bool, es: seq<Event>, k: nat)
    requires Exec(name, reconnect, es).Some? && k <= |es|
    requires forall j :: 0 <= j < |es| && es[j].StartHandler? ==> At(name, reconnect, es, j).io.timers == 0
    ensures Calm(At(name, reconnect, es, k))
    decreases k
  {
    if k > 0 {
      StaysCalm(name, reconnect, es, k - 1);
      AtNext(name, reconnect, es, k - 1);
      StepCalm(At(name, reconnect, es, k - 1), es[k - 1]);
    }
  }

  /** For every run: at every moment a pending reconnect means that the handler has failed, if and only
      if no start happens while a reconnect is pending. */
  lemma {:induction false} PendingMeansFailedExactly(name: string, reconnect: bool, es: seq<Event>)
    requires Exec(name, reconnect, es).Some?
    ensures (forall k :: 0 <= k <= |es| && At(name, reconnect, es, k).io.timers > 0 ==>
               At(name, reconnect, es, k).h.status.state == Failed) <==>
            (forall k :: 0 <= k < |es| && es[k].StartHandler? ==> At(name, reconnect, es, k).io.timers == 0)
  {
    if forall k :: 0 <= k < |es| && es[k].StartHandler? ==> At(name, reconnect, es, k).io.timers == 0 {
      forall k | 0 <= k <= |es| && At(name, reconnect, es, k).io.timers > 0
        ensures At(name, reconnect, es, k).h.status.state == Failed
      {
        StaysCalm(name, reconnect, es, k);
      }
    } else {
      var k :| 0 <= k < |es| && es[k].StartHandler? && At(name, reconnect, es, k).io.timers > 0;
      var s := At(name, reconnect, es, k);
      AtNext(name, reconnect, es, k);
      StartedByStart(s.h.status, s.h.controls + 1);
      assert At(name, reconnect, es, k + 1).io.timers > 0;
    }
  }

  /** Event `e` delivers an error to the handler. */
  predicate DeliversError(s: Pair, e: Event)
  {
    s.h.controls > 0 &&
    match e
    case SocketError(_, _) => true
    case Write(p, connected, written, _) =>
      s.h.status.state == Started && s.io.socket.Some? && connected && written != |p|
    case _ => false
  }

  /** There was a start, and no error was delivered since the last one. */
  predicate StartedSinceError(name: string, reconnect: bool, es: seq<Event>)
    requires Exec(name, reconnect, es).Some?
    decreases |es|
  {
    es != [] &&
    var before, e := es[..|es| - 1], es[|es| - 1];
    var s := Exec(name, reconnect, before).value;
    (e.StartHandler? || (StartedSinceError(name, reconnect, before) && !DeliversError(s, e)))
  }

  /** The handler is Started exactly if there was a start and no error was delivered since the last
      start, whether it was stopped meanwhile or not. */
  lemma {:induction false} StartedExactly(name: string, reconnect: bool, es: seq<Event>)
    requires Exec(name, reconnect, es).Some?
    ensures Exec(name, reconnect, es).value.h.status.state == Started <==> StartedSinceError(name, reconnect, es)
    decreases |es|
  {
    if es != [] {
      var before, e := es[..|es| - 1], es[|es| - 1];
      var s := Exec(name, reconnect, before).value;
      StartedExactly(name, reconnect, before);
      match e
      case StartHandler => StartedByStart(s.h.status, s.h.controls + 1);
      case SocketError(_, m) => RaisedError(s.h.status, m, s.h.controls);
      case Write(_, _, _, m) => RaisedError(s.h.status, m, s.h.controls);
      case _ =>
    }
  }

  /** From the first delivered error on, and until a start, the handler stays failed: it accepts no
      write and hands no byte to a socket, however many reconnects succeed. */
  lemma {:induction false} FailedWritesNothing(name: string, reconnect: bool, es: seq<Event>, more: seq<Event>)
    requires Exec(name, reconnect, es + more).Some? && Starts(more) == 0
    requires Exec(name, reconnect, es).Some? && Exec(name, reconnect, es).value.h.status.state == Failed
    ensures var s, r := Exec(name, reconnect, es).value, Exec(name, reconnect, es + more).value;
            && r.h.status.state == Failed
            && r.h.written == s.h.written && r.h.sent == s.h.sent
            && r.io.handed == s.io.handed && r.io.statWritten == s.io.statWritten
    decreases |more|
  {
    if more == [] {
      assert es + more == es;
    } else {
      var before, e := more[..|more| - 1], more[|more| - 1];
      assert (es + more)[..|es + more| - 1] == es + before;
      FailedWritesNothing(name, reconnect, es, before);
      var s := Exec(name, reconnect, es + before).value;
      if e.SocketError? { RaisedError(s.h.status, e.message, s.h.controls); }
    }
  }

  /** There was a start after the last stop. */
  predicate StartedSinceStop(es: seq<Event>)
    decreases |es|
  {
    es != [] &&
    match es[|es| - 1]
    case StartHandler => true
    case StopHandler => false
    case _ => StartedSinceStop(es[..|es| - 1])
  }

  /** The last signal the handler had delivered. */
  function LastSignal(name: string, reconnect: bool, es: seq<Event>): Option<HandlerState.Control>
    requires Exec(name, reconnect, es).Some?
    decreases |es|
  {
    if es == [] then None
    else
      var before, e := es[..|es| - 1], es[|es| - 1];
      if e.StartHandler? then Some(IoStarted)
      else if DeliversError(Exec(name, reconnect, before).value, e) then Some(IoError(e.message))
      else LastSignal(name, reconnect, before)
  }

  /** In every run state and message are those of the last signal delivered, the text of an error kept
      word for word. */
  lemma {:induction false} ClientSaysLast(name: string, reconnect: bool, es: seq<Event>)
    requires Exec(name, reconnect, es).Some?
    ensures SaidLast(Exec(name, reconnect, es).value.h.status, LastSignal(name, reconnect, es))
    ensures Exec(name, reconnect, es).value.h.controls > 0 <==> StartedSinceStop(es)
    decreases |es|
  {
    if es != [] {
      var before, e := es[..|es| - 1], es[|es| - 1];
      ClientSaysLast(name, reconnect, before);
      StepSaysLast(Exec(name, reconnect, before).value, e);
    }
  }

  lemma {:induction false} StepSaysLast(s: Pair, e: Event)
    requires Possible(s, e)
    ensures var r := Step(s, e).h.status;
            if e.StartHandler? then SaidLast(r, Some(IoStarted))
            else if DeliversError(s, e) then SaidLast(r, Some(IoError(e.message)))
            else r == s.h.status
  {
    if e.StartHandler? {
      RaiseSaysLast(s.h.status, [IoStarted], s.h.controls + 1);
    } else if DeliversError(s, e) {
      RaiseSaysLast(s.h.status, [IoError(e.message)], s.h.controls);
    } else if (e.SocketError? || e.Write?) && s.h.controls == 0 {
      UnconnectedRaise(s.h.status, [IoError(e.message)]);
    }
  }

  /** What a run has put into the ledgers: the bytes handed to sockets, those the IO booked, the packets
      the handler accepted, the bytes read by the IO and by the handler. */
  datatype Ledger = Ledger(handed: int, booked: int, accepted: seq<Packet>, read: int, relayed: int)

  /** A write adds what it carries if it meets a Started handler, to the IO's ledgers only if it also meets
      a connected socket, and to the booked bytes only if the socket takes all of it; what is read reaches
      the handler unless it was stopped before. */
  function Posted(l: Ledger, s: Pair, e: Event, stopped: bool): Ledger
  {
    match e
    case Write(p, connected, written, _) =>
      if s.h.status.state != Started then l
      else
        var live := connected && s.io.socket.Some?;
        l.(accepted := l.accepted + [p],
           handed := l.handed + if live then |p| else 0,
           booked := l.booked + if live && written == |p| then |p| else 0)
    case ReadyRead(_, chunks) =>
      l.(read := l.read + TotalBytes(chunks), relayed := l.relayed + if stopped then 0 else TotalBytes(chunks))
    case _ => l
  }

  function LedgerOf(name: string, reconnect: bool, es: seq<Event>): Ledger
    requires Exec(name, reconnect, es).Some?
    decreases |es|
  {
    if es == [] then Ledger(0, 0, [], 0, 0)
    else
      var before := es[..|es| - 1];
      Posted(LedgerOf(name, reconnect, before), Exec(name, reconnect, before).value, es[|es| - 1], Stops(before) > 0)
  }

  ghost predicate Matches(s: Pair, l: Ledger)
  {
    && s.io.handed == l.handed && s.io.statWritten == l.booked && s.io.statRead == l.read
    && s.h.sent == l.accepted && s.h.written == TotalBytes(l.accepted) && s.h.read == l.relayed
  }

  lemma {:induction false} StepMatches(s: Pair, l: Ledger, e: Event, stopped: bool)
    requires Possible(s, e) && Matches(s, l) && (s.h.relay <==> !stopped)
    ensures Matches(Step(s, e), Posted(l, s, e, stopped))
  {
    if e.Write? { assert (l.accepted + [e.p])[..|l.accepted|] == l.accepted; }
  }

  /** In every run the ledgers are exactly these sums. */
  lemma {:induction false} LedgersExactly(name: string, reconnect: bool, es: seq<Event>)
    requires Exec(name, reconnect, es).Some?
    ensures Matches(Exec(name, reconnect, es).value, LedgerOf(name, reconnect, es))
    decreases |es|
  {
    if es != [] {
      var before := es[..|es| - 1];
      LedgersExactly(name, reconnect, before);
      LedgersOfAClient(name, reconnect, before);
      var s, l := Exec(name, reconnect, before).value, LedgerOf(name, reconnect, before);
      StepMatches(s, l, es[|es| - 1], Stops(before) > 0);
    }
  }

  function Stops(es: seq<Event>): nat
    decreases |es|
  {
    if es == [] then 0 else Stops(es[..|es| - 1]) + if es[|es| - 1].StopHandler? then 1 else 0
  }

  /** Up to the first stop the handler has read what the sockets delivered, and it books every write,
      even when the socket takes fewer bytes or is not connected. */
  ghost predicate Booked(s: Pair, stopped: bool)
  {
    && (s.h.relay <==> !stopped)
    && (s.h.relay ==> s.h.read == s.io.statRead)
    && 0 <= s.io.statWritten <= s.io.handed <= s.h.written
  }

  lemma StepBooked(s: Pair, e: Event, stopped: bool)
    requires Booked(s, stopped) && Possible(s, e)
    ensures Booked(Step(s, e), stopped || e.StopHandler?)
  {
  }

  lemma {:induction false} LedgersOfAClient(name: string, reconnect: bool, es: seq<Event>)
    requires Exec(name, reconnect, es).Some?
    ensures Booked(Exec(name, reconnect, es).value, Stops(es) > 0)
    decreases |es|
  {
    if es != [] {
      var before := es[..|es| - 1];
      LedgersOfAClient(name, reconnect, before);
      StepBooked(Exec(name, reconnect, before).value, es[|es| - 1], Stops(before) > 0);
    }
  }

  /** The smallest run with a pending reconnect. */
  lemma {:induction false} OneErrorPending(name: string, message: string)
    ensures var es := [StartHandler, SocketError(0, message)];
            && Exec(name, true, es).Some?
            && Exec(name, true, es).value.io.timers == 1 && Exec(name, true, es).value.h.controls == 1
  {
    var a, b := [StartHandler], [StartHandler, SocketError(0, message)];
    assert a[..0] == [] && b[..1] == a;
    assert Exec(name, true, a).Some?;
  }

  /** A stop after it is followed by a socket without a start. */
  lemma {:induction false} PendingReconnectSurvives(name: string, message: string)
    ensures var es := [StartHandler, SocketError(0, message), StopHandler, TimerFires];
            Exec(name, true, es).Some? && Exec(name, true, es).value.io.socket.Some?
  {
    var b := [StartHandler, SocketError(0, message)];
    var c, d := b + [StopHandler], b + [StopHandler, TimerFires];
    OneErrorPending(name, message);
    assert c[..2] == b && d[..3] == c;
    assert Exec(name, true, c).Some?;
    assert d == [StartHandler, SocketError(0, message), StopHandler, TimerFires];
  }

  /** A second start makes the handler Started while the reconnect is pending. */
  lemma {:induction false} StartedWhilePending(name: string, message: string)
    ensures var es := [StartHandler, SocketError(0, message), StartHandler];
            && Exec(name, true, es).Some?
            && Exec(name, true, es).value.io.timers == 1 && Exec(name, true, es).value.h.status.state == Started
  {
    var b := [StartHandler, SocketError(0, message)];
    var e := b + [StartHandler];
    OneErrorPending(name, message);
    StartedByStart(Exec(name, true, b).value.h.status, 2);
    assert e[..2] == b;
    assert e == [StartHandler, SocketError(0, message), StartHandler];
  }
}
