/**
  The TCP server's socket list and byte ledger, together with its Handler, over every run of accept,
  disconnect, socket error, write, read and stop steps.
*/
module TcpServer {
  import opened Arithmetic
  import opened HandlerState
  import opened Sequences
  import opened Wrappers

  // ---------------------------------------------------------------------------------------------
  // The IO
  // ---------------------------------------------------------------------------------------------

  datatype Server = Server(maxConnections: int, broadcast: bool, sockets: seq<nat>, statRead: int, statWritten: int)

  /** What one `write` on a socket returns, and the text that reports it should it be short. */
  datatype WriteResult = WriteResult(written: int, message: string)

  /** The results for each socket. */
  type Results = nat -> WriteResult

  /** The bytes booked for writing a packet of `n` bytes to the sockets: a short write books nothing. */
  function Booked(sockets: seq<nat>, n: nat, results: Results): int
    decreases |sockets|
  {
    if sockets == [] then 0
    else Booked(sockets[..|sockets| - 1], n, results) + if results(sockets[|sockets| - 1]).written == n then n else 0
  }

  /** The errors raised while doing so, one for each short write, in list order. */
  function ShortWrites(sockets: seq<nat>, n: nat, results: Results): seq<Control>
    decreases |sockets|
  {
    if sockets == [] then []
    else
      var s := sockets[|sockets| - 1];
      var error := if results(s).written == n then [] else [IoError(results(s).message)];
      ShortWrites(sockets[..|sockets| - 1], n, results) + error
  }

  function Without(sockets: seq<nat>, s: nat): seq<nat>
    decreases |sockets|
  {
    if sockets == [] then []
    else if sockets[0] == s then sockets[1..]
    else [sockets[0]] + Without(sockets[1..], s)
  }

  function Others(sockets: seq<nat>, s: nat): seq<nat>
    decreases |sockets|
  {
    if sockets == [] then []
    else Others(sockets[..|sockets| - 1], s) + (if sockets[|sockets| - 1] == s then [] else [sockets[|sockets| - 1]])
  }

  lemma {:induction false} OthersNext(sockets: seq<nat>, i: nat, s: nat, n: nat, results: Results)
    requires i < |sockets|
    ensures var before, after := Others(sockets[..i], s), Others(sockets[..i + 1], s);
            if sockets[i] == s then after == before
            else
              var (bytes, errors) := if results(sockets[i]).written == n then (n, [])
                                     else (0, [IoError(results(sockets[i]).message)]);
              && Booked(after, n, results) == Booked(before, n, results) + bytes
              && ShortWrites(after, n, results) == ShortWrites(before, n, results) + errors
  {
    var before, after := Others(sockets[..i], s), Others(sockets[..i + 1], s);
    assert sockets[..i + 1][..i] == sockets[..i];
    if sockets[i] != s {
      assert after == before + [sockets[i]];
      assert after[..|after| - 1] == before;
    }
  }

  class TcpServerIO {
    const maxConnections: int
    const broadcast: bool
    var sockets: seq<nat>
    var bytesRead: int
    var bytesWritten: int

    ghost function GetServer(): Server
      reads this
    {
      Server(maxConnections, broadcast, sockets, bytesRead, bytesWritten)
    }

    ghost predicate Valid()
      reads this
    {
      Distinct(sockets) && |sockets| <= Limit(maxConnections)
    }

    constructor (maxConnections: int, broadcast: bool)
      ensures Valid() && GetServer() == Server(maxConnections, broadcast, [], 0, 0)
    {
      this.maxConnections, this.broadcast := maxConnections, broadcast;
      sockets, bytesRead, bytesWritten := [], 0, 0;
    }

    /** `pending` is the next pending connection, if there is one, which is a new object; `refusal` is
        the text that reports it if it has to be refused.  It ends up in the list or is reported, never
        both, and it is reported exactly if the list is full. */
    method OnServerNewConnection(pending: Option<nat>, refusal: string) returns (errors: seq<Control>)
      requires Valid() && (pending.Some? ==> pending.value !in sockets)
      modifies this`sockets
      ensures Valid() && GetServer() == Accepted(old(GetServer()), pending)
      ensures multiset(sockets)
           == multiset(old(sockets)) + if pending.Some? && errors == [] then multiset{pending.value} else multiset{}
      ensures errors == [] || (pending.Some? && errors == [IoError(refusal)])
      ensures pending.Some? ==> (errors != [] <==> |old(sockets)| == Limit(maxConnections))
    {
      if pending == None {
        return [];
      }
      if |sockets| >= maxConnections {
        return [IoError(refusal)];
      }
      sockets := sockets + [pending.value];
      return [];
    }

    method WriteSocket(s: nat, n: nat, results: Results) returns (errors: seq<Control>)
      modifies this`bytesWritten
      ensures bytesWritten == old(bytesWritten) + if results(s).written == n then n else 0
      ensures errors == if results(s).written == n then [] else [IoError(results(s).message)]
    {
      if results(s).written != n {
        return [IoError(results(s).message)];
      }
      bytesWritten := bytesWritten + results(s).written;
      return [];
    }

    method WriteData(n: nat, results: Results) returns (errors: seq<Control>)
      modifies this`bytesWritten
      ensures bytesWritten == old(bytesWritten) + Booked(sockets, n, results)
      ensures errors == ShortWrites(sockets, n, results)
    {
      errors := [];
      for i := 0 to |sockets|
        invariant bytesWritten == old(bytesWritten) + Booked(sockets[..i], n, results)
        invariant errors == ShortWrites(sockets[..i], n, results)
      {
        var es := WriteSocket(sockets[i], n, results);
        errors := errors + es;
        assert sockets[..i + 1][..i] == sockets[..i];
      }
      assert sockets[..|sockets|] == sockets;
    }

    /** `data` is what the socket `s` has available, of `n` bytes; it goes to the other clients first
        if the server broadcasts. */
    method OnSocketReadyRead(s: nat, n: nat, results: Results) returns (errors: seq<Control>, emitted: bool)
      modifies this`bytesRead, this`bytesWritten
      ensures GetServer() == Received(old(GetServer()), s, n, results)
      ensures errors == if n > 0 && broadcast then ShortWrites(Others(sockets, s), n, results) else []
      ensures emitted <==> n > 0
    {
      errors, emitted := [], false;
      if n > 0 {
        if broadcast {
          errors := Broadcast(s, n, results);
        }
        bytesRead := bytesRead + n;
        emitted := true;
      }
    }

    method Broadcast(s: nat, n: nat, results: Results) returns (errors: seq<Control>)
      modifies this`bytesWritten
      ensures bytesWritten == old(bytesWritten) + Booked(Others(sockets, s), n, results)
      ensures errors == ShortWrites(Others(sockets, s), n, results)
    {
      errors := [];
      for i := 0 to |sockets|
        invariant bytesWritten == old(bytesWritten) + Booked(Others(sockets[..i], s), n, results)
        invariant errors == ShortWrites(Others(sockets[..i], s), n, results)
      {
        OthersNext(sockets, i, s, n, results);
        if sockets[i] != s {
          var es := WriteSocket(sockets[i], n, results);
          errors := errors + es;
        }
      }
      assert sockets[..|sockets|] == sockets;
    }

    /** `removeOne`: the socket's first entry goes, the others keep their order. */
    method OnSocketDisconnected(s: nat)
      requires Valid()
      modifies this`sockets
      ensures Valid() && GetServer() == Disconnected(old(GetServer()), s)
      ensures s !in sockets && multiset(sockets) == multiset(old(sockets)) - multiset{s}
      ensures forall k :: 0 <= k < |old(sockets)| && old(sockets)[k] == s ==>
                sockets == old(sockets)[..k] + old(sockets)[k + 1..]
    {
      WithoutIs(sockets, s);
      WithoutOne(sockets, s);
      forall k | 0 <= k < |sockets| && sockets[k] == s
        ensures Without(sockets, s) == sockets[..k] + sockets[k + 1..]
      {
        WithoutAt(sockets, s, k);
      }
      sockets := Without(sockets, s);
    }

    /** Every socket is released. */
    method Stop()
      modifies this`sockets
      ensures Valid() && GetServer() == Closed(old(GetServer()))
    {
      sockets := [];
    }
  }

  function Limit(maxConnections: int): nat
  {
    if maxConnections > 0 then maxConnections else 0
  }

  function Disconnected(io: Server, s: nat): Server
  {
    io.(sockets := Without(io.sockets, s))
  }

  function Closed(io: Server): Server
  {
    io.(sockets := [])
  }

  function Accepted(io: Server, pending: Option<nat>): Server
  {
    if pending == None || |io.sockets| >= io.maxConnections then io
    else io.(sockets := io.sockets + [pending.value])
  }

  function Received(io: Server, s: nat, n: nat, results: Results): Server
  {
    if n == 0 then io
    else io.(statRead := io.statRead + n,
             statWritten := io.statWritten + if io.broadcast then Booked(Others(io.sockets, s), n, results) else 0)
  }

  // ---------------------------------------------------------------------------------------------
  // The IO and its Handler
  // ---------------------------------------------------------------------------------------------

  /** `stray` counts the bytes read from sockets that were no longer listed. */
  datatype Pair = Pair(h: View, io: Server, stray: nat)

  datatype Event =
    | Start(listening: bool, message: string)
    | Stop
    | Accept(pending: Option<nat>, refusal: string)
    | AcceptError(message: string)
    | Disconnect(s: nat)
    | SocketError(s: nat, message: string)
    | Write(p: Packet, results: Results)
    | Read(s: nat, p: Packet, results: Results)

  /** A new connection is an object of its own. */
  predicate Possible(x: Pair, e: Event)
  {
    e.Accept? && e.pending.Some? ==> e.pending.value !in x.io.sockets
  }

  function Raised(h: View, errors: seq<Control>): View
  {
    h.(status := Raise(h.status, errors, h.controls))
  }

  function Step(x: Pair, e: Event): Pair
    requires Possible(x, e)
  {
    match e
    case Start(listening, message) =>
      x.(h := HandlerState.Start(x.h, [if listening then IoStarted else IoStartupError(message)]))
    case Stop => x.(h := HandlerState.Stop(x.h), io := Closed(x.io))
    case Accept(pending, refusal) =>
      var full := pending.Some? && |x.io.sockets| >= x.io.maxConnections;
      x.(h := if full then Raised(x.h, [IoError(refusal)]) else x.h, io := Accepted(x.io, pending))
    case AcceptError(message) => x.(h := Raised(x.h, [IoError(message)]))
    case Disconnect(s) => x.(io := Disconnected(x.io, s))
    case SocketError(_, message) => x.(h := Raised(x.h, [IoError(message)]))
    case Write(p, results) =>
      if x.h.status.state != Started then x
      else
        var h := Raised(x.h, ShortWrites(x.io.sockets, |p|, results));
        x.(h := h.(written := h.written + |p|, sent := h.sent + [p]),
           io := x.io.(statWritten := x.io.statWritten + Booked(x.io.sockets, |p|, results)))
    case Read(s, p, results) =>
      if p == [] then x
      else
        var h := if x.io.broadcast then Raised(x.h, ShortWrites(Others(x.io.sockets, s), |p|, results)) else x.h;
        Pair(if h.relay then h.(read := h.read + |p|) else h,
             Received(x.io, s, |p|, results),
             x.stray + if s in x.io.sockets then 0 else |p|)
  }

  function Exec(name: string, maxConnections: int, broadcast: bool, es: seq<Event>): Option<Pair>
    decreases |es|
  {
    if es == [] then Some(Pair(Created(name, false), Server(maxConnections, broadcast, [], 0, 0), 0))
    else
      match Exec(name, maxConnections, broadcast, es[..|es| - 1])
      case None => None
      case Some(x) => if Possible(x, es[|es| - 1]) then Some(Step(x, es[|es| - 1])) else None
  }

  // ---------------------------------------------------------------------------------------------
  // Bounds
  // ---------------------------------------------------------------------------------------------

  lemma {:induction false} BookedBound(sockets: seq<nat>, n: nat, results: Results)
    ensures 0 <= Booked(sockets, n, results) <= |sockets| * n
    decreases |sockets|
  {
    if sockets != [] {
      BookedBound(sockets[..|sockets| - 1], n, results);
      assert |sockets| * n == (|sockets| - 1) * n + n;
    }
  }

  lemma {:induction false} WithoutIs(sockets: seq<nat>, s: nat)
    requires Distinct(sockets)
    ensures var r := Without(sockets, s);
            && Distinct(r)
            && (forall t :: t in r <==> t in sockets && t != s)
            && |r| == |sockets| - (if s in sockets then 1 else 0)
    decreases |sockets|
  {
    if sockets != [] && sockets[0] != s {
      var rest := Without(sockets[1..], s);
      WithoutIs(sockets[1..], s);
      assert sockets == [sockets[0]] + sockets[1..];
      forall j | 0 <= j < |rest|
        ensures rest[j] != sockets[0]
      {
        assert rest[j] in sockets[1..];
        var k :| 0 <= k < |sockets[1..]| && sockets[1..][k] == rest[j];
        assert sockets[k + 1] != sockets[0];
      }
    }
  }

  lemma {:induction false} WithoutOne(sockets: seq<nat>, s: nat)
    ensures multiset(Without(sockets, s)) == multiset(sockets) - multiset{s}
    decreases |sockets|
  {
    if sockets != [] {
      assert sockets == [sockets[0]] + sockets[1..];
      if sockets[0] != s { WithoutOne(sockets[1..], s); }
    }
  }

  /** The sockets before the first entry of `s` and those after it stay, in this order. */
  lemma {:induction false} WithoutAt(sockets: seq<nat>, s: nat, k: nat)
    requires k < |sockets| && sockets[k] == s && s !in sockets[..k]
    ensures Without(sockets, s) == sockets[..k] + sockets[k + 1..]
    decreases k
  {
    if k > 0 {
      assert sockets[..k][0] == sockets[0];
      assert sockets[1..][..k - 1] == sockets[..k][1..];
      WithoutAt(sockets[1..], s, k - 1);
      assert sockets[..k] == [sockets[0]] + sockets[1..][..k - 1];
      assert sockets[1..][k..] == sockets[k + 1..];
    }
  }

  lemma {:induction false} OthersFewer(sockets: seq<nat>, s: nat)
    ensures |Others(sockets, s)| <= |sockets| - if s in sockets then 1 else 0
    decreases |sockets|
  {
    if sockets != [] {
      var before := sockets[..|sockets| - 1];
      OthersFewer(before, s);
      assert sockets == before + [sockets[|sockets| - 1]];
    }
  }

  ghost predicate Bounded(x: Pair)
  {
    var m := x.io.maxConnections;
    && Distinct(x.io.sockets)
    && |x.io.sockets| <= Limit(m)
    && x.h.written >= 0 && 0 <= x.stray <= x.io.statRead
    && (m <= 0 ==> x.io.statWritten == 0)
    && (m > 0 ==> x.io.statWritten <= m * x.h.written + if x.io.broadcast then (m - 1) * x.io.statRead + x.stray else 0)
  }

  lemma {:induction false} StepBounded(x: Pair, e: Event)
    requires Bounded(x) && Possible(x, e)
    ensures Bounded(Step(x, e))
  {
    match e
    case Disconnect(s) => WithoutIs(x.io.sockets, s);
    case Write(p, results) => WriteBounded(x, p, results);
    case Read(s, p, results) => ReadBounded(x, s, p, results);
    case _ =>
  }

  lemma {:induction false} WriteBounded(x: Pair, p: Packet, results: Results)
    requires Bounded(x)
    ensures Bounded(Step(x, Write(p, results)))
  {
    var m := x.io.maxConnections;
    BookedBound(x.io.sockets, |p|, results);
    if m > 0 {
      Times(|x.io.sockets|, m, |p|);
      TimesSum(x.h.written, |p|, m);
    }
  }

  lemma {:induction false} ReadBounded(x: Pair, s: nat, p: Packet, results: Results)
    requires Bounded(x)
    ensures Bounded(Step(x, Read(s, p, results)))
  {
    var m, n := x.io.maxConnections, |p|;
    BookedBound(Others(x.io.sockets, s), n, results);
    OthersFewer(x.io.sockets, s);
    if m > 0 {
      OthersBytes(|Others(x.io.sockets, s)|, m, n, s in x.io.sockets);
      TimesSum(x.io.statRead, n, m - 1);
    }
  }

  lemma OthersBytes(others: nat, m: nat, n: nat, listed: bool)
    requires others <= m - if listed then 1 else 0
    ensures others * n <= (m - 1) * n + if listed then 0 else n
  {
    Times(others, m - if listed then 1 else 0, n);
    assert m * n == (m - 1) * n + n;
  }

  /** At every state of every run: no socket is listed twice, there are at most `maxConnections`, and
      the server has written at most `maxConnections` times what its handler accepted, plus, if it
      broadcasts, `maxConnections - 1` times what it read and once more what came from sockets that
      were no longer listed. */
  lemma {:induction false} ServerLedgerBound(name: string, maxConnections: int, broadcast: bool, es: seq<Event>)
    requires Exec(name, maxConnections, broadcast, es).Some?
    ensures var x := Exec(name, maxConnections, broadcast, es).value;
            && x.io.maxConnections == maxConnections && x.io.broadcast == broadcast
            && Bounded(x)
    decreases |es|
  {
    if es != [] {
      ServerLedgerBound(name, maxConnections, broadcast, es[..|es| - 1]);
      StepBounded(Exec(name, maxConnections, broadcast, es[..|es| - 1]).value, es[|es| - 1]);
    }
  }

  /** At every state of every run the handler relays exactly if it was never stopped, and until then it
      has read what its sockets delivered. */
  lemma {:induction false} ReadsUntilFirstStop(name: string, maxConnections: int, broadcast: bool, es: seq<Event>)
    requires Exec(name, maxConnections, broadcast, es).Some?
    ensures var x := Exec(name, maxConnections, broadcast, es).value;
            && (x.h.relay <==> Event.Stop !in es)
            && (x.h.relay ==> x.h.read == x.io.statRead)
    decreases |es|
  {
    if es != [] {
      var before := es[..|es| - 1];
      ReadsUntilFirstStop(name, maxConnections, broadcast, before);
      StepReads(Exec(name, maxConnections, broadcast, before).value, es[|es| - 1]);
      assert es == before + [es[|es| - 1]];
    }
  }

  lemma StepReads(x: Pair, e: Event)
    requires Possible(x, e) && (x.h.relay ==> x.h.read == x.io.statRead)
    ensures var r := Step(x, e);
            && (r.h.relay <==> x.h.relay && !e.Stop?)
            && (r.h.relay ==> r.h.read == r.io.statRead)
  {
  }

  // ---------------------------------------------------------------------------------------------
  // The exact ledgers
  // ---------------------------------------------------------------------------------------------

  /** Writing to one socket books the packet if the socket took all of it and reports it otherwise. */
  lemma {:induction false} WriteToOne(s: nat, n: nat, results: Results)
    ensures Booked([s], n, results) == if results(s).written == n then n else 0
    ensures ShortWrites([s], n, results) == if results(s).written == n then [] else [IoError(results(s).message)]
  {
    assert [s][..0] == [];
  }

  /** Writing to some sockets and then to others is writing to all of them. */
  lemma {:induction false} WritesInOrder(a: seq<nat>, b: seq<nat>, n: nat, results: Results)
    ensures Booked(a + b, n, results) == Booked(a, n, results) + Booked(b, n, results)
    ensures ShortWrites(a + b, n, results) == ShortWrites(a, n, results) + ShortWrites(b, n, results)
    decreases |b|
  {
    if b == [] {
      assert a + b == a;
    } else {
      WritesInOrder(a, b[..|b| - 1], n, results);
      assert (a + b)[..|a + b| - 1] == a + b[..|b| - 1];
    }
  }

  /** The sockets that take all of a packet of `n` bytes. */
  ghost function Whole(sockets: seq<nat>, n: nat, results: Results): set<nat>
  {
    set s | s in sockets && results(s).written == n
  }

  lemma {:induction false} BookedExactly(sockets: seq<nat>, n: nat, results: Results)
    requires Distinct(sockets)
    ensures Booked(sockets, n, results) == n * |Whole(sockets, n, results)|
    decreases |sockets|
  {
    if sockets != [] {
      var before, s := sockets[..|sockets| - 1], sockets[|sockets| - 1];
      BookedExactly(before, n, results);
      assert sockets == before + [s];
      if results(s).written == n {
        assert Whole(sockets, n, results) == Whole(before, n, results) + {s};
        TimesSum(|Whole(before, n, results)|, 1, n);
      } else {
        assert Whole(sockets, n, results) == Whole(before, n, results);
      }
    }
  }

  /** A broadcast goes to the list without the sender. */
  lemma {:induction false} OthersAreTheRest(sockets: seq<nat>, s: nat)
    requires Distinct(sockets)
    ensures Others(sockets, s) == Without(sockets, s)
    decreases |sockets|
  {
    if sockets != [] {
      var before, last := sockets[..|sockets| - 1], sockets[|sockets| - 1];
      OthersAreTheRest(before, s);
      WithoutLast(before, last, s);
      assert sockets == before + [last];
    }
  }

  lemma {:induction false} WithoutLast(before: seq<nat>, last: nat, s: nat)
    requires Distinct(before + [last])
    ensures Without(before + [last], s) == Without(before, s) + if last == s then [] else [last]
    decreases |before|
  {
    var all := before + [last];
    if before == [] {
      assert all[1..] == [];
    } else {
      assert all[1..] == before[1..] + [last] && all[0] == before[0];
      assert Distinct(before[1..] + [last]) by {
        assert forall i :: 0 <= i < |all| - 1 ==> (before[1..] + [last])[i] == all[i + 1];
      }
      WithoutLast(before[1..], last, s);
      assert all[|all| - 1] == last && all[0] != last;
    }
  }

  /** What a run has put into the ledgers: the bytes the IO booked as written and as read, the packets
      the handler accepted, and the bytes it read. */
  datatype Ledger = Ledger(booked: int, read: int, accepted: seq<Packet>, relayed: int)

  /** A write that meets a Started handler is accepted and booked once for each listed socket that takes all
      of it; what is read is booked and, in a broadcast, written likewise to every other socket, and it
      reaches the handler unless it was stopped before. */
  ghost function Posted(l: Ledger, x: Pair, e: Event, stopped: bool): Ledger
  {
    match e
    case Write(p, results) =>
      if x.h.status.state != Started then l
      else l.(accepted := l.accepted + [p], booked := l.booked + |p| * |Whole(x.io.sockets, |p|, results)|)
    case Read(s, p, results) =>
      if p == [] then l
      else
        l.(read := l.read + |p|,
           relayed := l.relayed + (if stopped then 0 else |p|),
           booked := l.booked + if x.io.broadcast then |p| * |Whole(x.io.sockets, |p|, results) - {s}| else 0)
    case _ => l
  }

  ghost function LedgerOf(name: string, maxConnections: int, broadcast: bool, es: seq<Event>): Ledger
    requires Exec(name, maxConnections, broadcast, es).Some?
    decreases |es|
  {
    if es == [] then Ledger(0, 0, [], 0)
    else
      var before := es[..|es| - 1];
      Posted(LedgerOf(name, maxConnections, broadcast, before), Exec(name, maxConnections, broadcast, before).value,
             es[|es| - 1], exists k :: 0 <= k < |before| && before[k].Stop?)
  }

  ghost predicate Matches(x: Pair, l: Ledger)
  {
    && x.io.statWritten == l.booked && x.io.statRead == l.read
    && x.h.sent == l.accepted && x.h.written == TotalBytes(l.accepted) && x.h.read == l.relayed
  }

  lemma {:induction false} OthersBooked(sockets: seq<nat>, s: nat, n: nat, results: Results)
    requires Distinct(sockets)
    ensures Booked(Others(sockets, s), n, results) == n * |Whole(sockets, n, results) - {s}|
  {
    OthersAreTheRest(sockets, s);
    WithoutIs(sockets, s);
    BookedExactly(Others(sockets, s), n, results);
    assert Whole(Others(sockets, s), n, results) == Whole(sockets, n, results) - {s};
  }

  lemma {:induction false} StepMatches(x: Pair, l: Ledger, e: Event, stopped: bool)
    requires Possible(x, e) && Matches(x, l) && Distinct(x.io.sockets) && (x.h.relay <==> !stopped)
    ensures Matches(Step(x, e), Posted(l, x, e, stopped))
  {
    match e
    case Write(_, _) => WriteMatches(x, l, e, stopped);
    case Read(_, _, _) => ReadMatches(x, l, e, stopped);
    case _ =>
  }

  lemma {:induction false} WriteMatches(x: Pair, l: Ledger, e: Event, stopped: bool)
    requires Matches(x, l) && Distinct(x.io.sockets) && e.Write?
    ensures Matches(Step(x, e), Posted(l, x, e, stopped))
  {
    BookedExactly(x.io.sockets, |e.p|, e.results);
    assert (l.accepted + [e.p])[..|l.accepted|] == l.accepted;
  }

  lemma {:induction false} ReadMatches(x: Pair, l: Ledger, e: Event, stopped: bool)
    requires Matches(x, l) && Distinct(x.io.sockets) && (x.h.relay <==> !stopped) && e.Read?
    ensures Matches(Step(x, e), Posted(l, x, e, stopped))
  {
    OthersBooked(x.io.sockets, e.s, |e.p|, e.results);
  }

  /** In every run the ledgers are exactly these sums. */
  lemma {:induction false} LedgersExactly(name: string, maxConnections: int, broadcast: bool, es: seq<Event>)
    requires Exec(name, maxConnections, broadcast, es).Some?
    ensures Matches(Exec(name, maxConnections, broadcast, es).value, LedgerOf(name, maxConnections, broadcast, es))
    decreases |es|
  {
    if es != [] {
      var before := es[..|es| - 1];
      LedgersExactly(name, maxConnections, broadcast, before);
      ServerLedgerBound(name, maxConnections, broadcast, before);
      ReadsUntilFirstStop(name, maxConnections, broadcast, before);
      var x := Exec(name, maxConnections, broadcast, before).value;
      var l := LedgerOf(name, maxConnections, broadcast, before);
      StepMatches(x, l, es[|es| - 1], exists k :: 0 <= k < |before| && before[k].Stop?);
    }
  }

  // ---------------------------------------------------------------------------------------------
  // The handler's state
  // ---------------------------------------------------------------------------------------------

  /** The errors the IO raises in an event, in order. */
  function ErrorsOf(x: Pair, e: Event): seq<Control>
  {
    match e
    case Accept(pending, refusal) =>
      if pending.Some? && |x.io.sockets| >= x.io.maxConnections then [IoError(refusal)] else []
    case AcceptError(message) => [IoError(message)]
    case SocketError(_, message) => [IoError(message)]
    case Write(p, results) =>
      if x.h.status.state == Started then ShortWrites(x.io.sockets, |p|, results) else []
    case Read(s, p, results) =>
      if p != [] && x.io.broadcast then ShortWrites(Others(x.io.sockets, s), |p|, results) else []
    case _ => []
  }

  lemma {:induction false} ShortWritesAreErrors(sockets: seq<nat>, n: nat, results: Results)
    ensures forall i :: 0 <= i < |ShortWrites(sockets, n, results)| ==> ShortWrites(sockets, n, results)[i].IoError?
    decreases |sockets|
  {
    if sockets != [] { ShortWritesAreErrors(sockets[..|sockets| - 1], n, results); }
  }

  /** There was a start after the last stop. */
  predicate StartedSinceStop(es: seq<Event>)
    decreases |es|
  {
    es != [] &&
    match es[|es| - 1]
    case Start(_, _) => true
    case Stop => false
    case _ => StartedSinceStop(es[..|es| - 1])
  }

  /** The last signal the handler had delivered. */
  function LastSignal(name: string, maxConnections: int, broadcast: bool, es: seq<Event>): Option<Control>
    requires Exec(name, maxConnections, broadcast, es).Some?
    decreases |es|
  {
    if es == [] then None
    else
      var before, e := es[..|es| - 1], es[|es| - 1];
      var errors := ErrorsOf(Exec(name, maxConnections, broadcast, before).value, e);
      if e.Start? then Some(if e.listening then IoStarted else IoStartupError(e.message))
      else if errors != [] && StartedSinceStop(before) then Some(errors[|errors| - 1])
      else LastSignal(name, maxConnections, broadcast, before)
  }

  /** In every run state and message are those of the last signal delivered. */
  lemma {:induction false} ServerSaysLast(name: string, maxConnections: int, broadcast: bool, es: seq<Event>)
    requires Exec(name, maxConnections, broadcast, es).Some?
    ensures SaidLast(Exec(name, maxConnections, broadcast, es).value.h.status,
                     LastSignal(name, maxConnections, broadcast, es))
    ensures Exec(name, maxConnections, broadcast, es).value.h.controls > 0 <==> StartedSinceStop(es)
    decreases |es|
  {
    if es != [] {
      var before, e := es[..|es| - 1], es[|es| - 1];
      ServerSaysLast(name, maxConnections, broadcast, before);
      StepSaysLast(Exec(name, maxConnections, broadcast, before).value, e);
    }
  }

  lemma {:induction false} StepSaysLast(x: Pair, e: Event)
    requires Possible(x, e)
    ensures var r, errors := Step(x, e).h.status, ErrorsOf(x, e);
            if e.Start? then SaidLast(r, Some(if e.listening then IoStarted else IoStartupError(e.message)))
            else if errors != [] && x.h.controls > 0 then SaidLast(r, Some(errors[|errors| - 1]))
            else r == x.h.status
  {
    var errors := ErrorsOf(x, e);
    if e.Start? {
      RaiseSaysLast(x.h.status, [if e.listening then IoStarted else IoStartupError(e.message)], x.h.controls + 1);
    } else if errors != [] && x.h.controls > 0 {
      RaiseSaysLast(x.h.status, errors, x.h.controls);
    } else if errors != [] {
      UnconnectedRaise(x.h.status, errors);
    }
  }

  /** The last start listened, and no error was delivered since. */
  predicate ListensSinceError(name: string, maxConnections: int, broadcast: bool, es: seq<Event>)
    requires Exec(name, maxConnections, broadcast, es).Some?
    decreases |es|
  {
    es != [] &&
    var before, e := es[..|es| - 1], es[|es| - 1];
    if e.Start? then e.listening
    else
      && ListensSinceError(name, maxConnections, broadcast, before)
      && (ErrorsOf(Exec(name, maxConnections, broadcast, before).value, e) == [] || !StartedSinceStop(before))
  }

  /** So the server's handler is Started if and only if its last start listened and no error was delivered
      since, whether it was stopped meanwhile or not. */
  lemma {:induction false} StartedExactly(name: string, maxConnections: int, broadcast: bool, es: seq<Event>)
    requires Exec(name, maxConnections, broadcast, es).Some?
    ensures Exec(name, maxConnections, broadcast, es).value.h.status.state == Started <==>
            ListensSinceError(name, maxConnections, broadcast, es)
    decreases |es|
  {
    if es != [] {
      var before, e := es[..|es| - 1], es[|es| - 1];
      var x := Exec(name, maxConnections, broadcast, before).value;
      StartedExactly(name, maxConnections, broadcast, before);
      ServerSaysLast(name, maxConnections, broadcast, before);
      StepSaysLast(x, e);
      ErrorsAreErrors(x, e);
    }
  }

  lemma {:induction false} ErrorsAreErrors(x: Pair, e: Event)
    ensures forall i :: 0 <= i < |ErrorsOf(x, e)| ==> ErrorsOf(x, e)[i].IoError?
  {
    match e
    case Write(p, results) => ShortWritesAreErrors(x.io.sockets, |p|, results);
    case Read(s, p, results) => ShortWritesAreErrors(Others(x.io.sockets, s), |p|, results);
    case _ =>
  }
}
