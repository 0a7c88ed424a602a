/**
  One delivery seen from inside.  A small machine says, from one moment of a delivery, which moment
  comes next; the nested calls of the classes are proved to go through exactly its moments, and what
  holds at every moment of a delivery is proved of the machine.
*/
module Delivery {
  import opened EngineState
  import opened HandlerState
  import opened Routing
  import opened Sequences
  import opened Wrappers

  // ---------------------------------------------------------------------------------------------
  // The machine
  // ---------------------------------------------------------------------------------------------

  /** The points of a delivery: writeData is entered; the IO's writeData has returned and nothing is
      booked yet; writeData returns; onNewData is entered; the read is booked; onNewData returns. */
  datatype Point = WriteEntered | IoReturned | WriteReturned | ReadEntered | ReadBooked | ReadReturned

  /** A handler that has booked its read of the packet, and how many of its connections it has called. */
  datatype Frame = Frame(handler: nat, called: nat)

  /** One moment: the handler it concerns, all handlers as they are, and the deliveries under way. */
  datatype Moment = Moment(point: Point, handler: nat, hs: seq<View>, stack: seq<Frame>)

  /** The handlers once the call of handler `v` has booked what it handed to its IO. */
  function Booked(hs: seq<View>, v: nat, p: Packet): seq<View>
    requires v < |hs|
  {
    hs[v := hs[v].(written := hs[v].written + |p|, sent := hs[v].sent + [p])]
  }

  /** The delivery on top of the stack calls its next connection, or has called them all. */
  function NextCall(net: Network, hs: seq<View>, stack: seq<Frame>): Option<Moment>
  {
    if stack == [] || stack[|stack| - 1].handler >= |net| then None
    else
      var Frame(u, k) := stack[|stack| - 1];
      if k < |net[u].outs| then
        Some(Moment(WriteEntered, net[u].outs[k], hs, stack[..|stack| - 1] + [Frame(u, k + 1)]))
      else
        Some(Moment(ReadReturned, u, hs, stack))
  }

  /** What comes after moment `m` in the delivery of packet `p`; nothing when the source's own delivery
      is done. */
  function NextMoment(net: Network, p: Packet, m: Moment): Option<Moment>
  {
    var Moment(point, v, hs, stack) := m;
    if v >= |net| || |hs| != |net| then None
    else
      match point
      case WriteEntered =>
        Some(m.(point := if !net[v].started then WriteReturned else if net[v].echoes then ReadEntered else IoReturned))
      case ReadEntered => Some(Moment(ReadBooked, v, hs[v := Relayed(hs[v], p)], stack + [Frame(v, 0)]))
      case ReadBooked => NextCall(net, hs, stack)
      case WriteReturned => NextCall(net, hs, stack)
      case ReadReturned => if |stack| <= 1 then None else Some(m.(point := IoReturned))
      case IoReturned => Some(Moment(WriteReturned, v, Booked(hs, v, p), Unwound(net, v, stack)))
  }

  /** An IO that gave the packet back has had a delivery of its own, which is over with its writeData. */
  function Unwound(net: Network, v: nat, stack: seq<Frame>): seq<Frame>
    requires v < |net|
  {
    if net[v].echoes && stack != [] then stack[..|stack| - 1] else stack
  }

  /** The machine goes from `a` through `moments` to `b`. */
  ghost predicate Trace(net: Network, p: Packet, a: Moment, moments: seq<Moment>, b: Moment)
  {
    && moments != [] && moments[0] == a && moments[|moments| - 1] == b
    && forall k :: 0 < k < |moments| ==> NextMoment(net, p, moments[k - 1]) == Some(moments[k])
  }

  /** The writeData calls among the moments. */
  ghost function EntriesOf(moments: seq<Moment>): seq<nat>
    decreases |moments|
  {
    if moments == [] then []
    else EntriesOf(moments[..|moments| - 1]) + EntryOf(moments[|moments| - 1])
  }

  function EntryOf(m: Moment): seq<nat>
  {
    if m.point == WriteEntered then [m.handler] else []
  }

  lemma {:induction false} TraceOne(net: Network, p: Packet, a: Moment)
    ensures Trace(net, p, a, [a], a) && EntriesOf([a]) == EntryOf(a)
  {
    assert [a][..0] == [];
  }

  lemma {:induction false} TraceThen(net: Network, p: Packet, a: Moment, moments: seq<Moment>, b: Moment, c: Moment)
    requires Trace(net, p, a, moments, b) && NextMoment(net, p, b) == Some(c)
    ensures Trace(net, p, a, moments + [c], c) && EntriesOf(moments + [c]) == EntriesOf(moments) + EntryOf(c)
  {
    assert (moments + [c])[..|moments|] == moments;
  }

  lemma {:induction false} EntriesConcat(first: seq<Moment>, second: seq<Moment>)
    ensures EntriesOf(first + second) == EntriesOf(first) + EntriesOf(second)
    decreases |second|
  {
    if second == [] {
      assert first + second == first;
    } else {
      EntriesConcat(first, second[..|second| - 1]);
      assert (first + second)[..|first + second| - 1] == first + second[..|second| - 1];
    }
  }

  lemma {:induction false} TraceJoin(
    net: Network, p: Packet, a: Moment, first: seq<Moment>, b: Moment, c: Moment, second: seq<Moment>, d: Moment)
    requires Trace(net, p, a, first, b) && NextMoment(net, p, b) == Some(c) && Trace(net, p, c, second, d)
    ensures Trace(net, p, a, first + second, d) && EntriesOf(first + second) == EntriesOf(first) + EntriesOf(second)
  {
    EntriesConcat(first, second);
    var all := first + second;
    forall k | 0 < k < |all|
      ensures NextMoment(net, p, all[k - 1]) == Some(all[k])
    {
      if k > |first| { assert all[k] == second[k - |first|]; }
    }
  }

  /** From one moment there is one way to the end. */
  lemma {:induction false} TraceUnique(
    net: Network, p: Packet, a: Moment, first: seq<Moment>, b: Moment, second: seq<Moment>, c: Moment)
    requires Trace(net, p, a, first, b) && NextMoment(net, p, b) == None
    requires Trace(net, p, a, second, c) && NextMoment(net, p, c) == None
    ensures first == second
  {
    var n := if |first| <= |second| then |first| else |second|;
    SamePrefix(net, p, a, first, b, second, c, n);
    assert first[n - 1] == second[n - 1];
    if |first| < |second| {
      GoesOn(net, p, a, second, c, n - 1);
    } else if |second| < |first| {
      GoesOn(net, p, a, first, b, n - 1);
    }
  }

  lemma GoesOn(net: Network, p: Packet, a: Moment, moments: seq<Moment>, b: Moment, k: nat)
    requires Trace(net, p, a, moments, b) && k + 1 < |moments|
    ensures NextMoment(net, p, moments[k]) == Some(moments[k + 1])
  {
    var j := k + 1;
    assert NextMoment(net, p, moments[j - 1]) == Some(moments[j]);
  }

  lemma {:induction false} SamePrefix(
    net: Network, p: Packet, a: Moment, first: seq<Moment>, b: Moment, second: seq<Moment>, c: Moment, n: nat)
    requires Trace(net, p, a, first, b) && Trace(net, p, a, second, c) && n <= |first| && n <= |second|
    ensures forall k :: 0 <= k < n ==> first[k] == second[k]
    decreases n
  {
    if n > 1 {
      SamePrefix(net, p, a, first, b, second, c, n - 1);
      var k := n - 1;
      assert NextMoment(net, p, first[k - 1]) == Some(first[k]) && NextMoment(net, p, second[k - 1]) == Some(second[k]);
    }
  }

  // ---------------------------------------------------------------------------------------------
  // What holds at every moment
  // ---------------------------------------------------------------------------------------------

  /** The handlers whose delivery is under way, from the source on. */
  function OnStack(stack: seq<Frame>): (r: seq<nat>)
    ensures |r| == |stack| && forall i :: 0 <= i < |r| ==> r[i] == stack[i].handler
  {
    seq(|stack|, i requires 0 <= i < |stack| => stack[i].handler)
  }

  /** At moment `m` each handler that relays an EchoIO has read the packet's length more than it wrote
      exactly if its own delivery is under way, and as much as it wrote otherwise. */
  ghost predicate DebtsHold(p: Packet, m: Moment)
  {
    forall v :: 0 <= v < |m.hs| && m.hs[v].echo && m.hs[v].relay ==>
      m.hs[v].read - m.hs[v].written == if v in OnStack(m.stack) then |p| else 0
  }

  /** Every handler that relays an EchoIO has read what it wrote, plus the packet once for each delivery
      of its own that is under way. */
  ghost predicate InFlight(hs: seq<View>, p: Packet, stack: seq<nat>)
  {
    forall i :: 0 <= i < |hs| && hs[i].echo && hs[i].relay ==>
      hs[i].read == hs[i].written + Bytes(p, Count(stack, i))
  }

  /** `stack` is the source and a chain of relays from it, none of which can come back. */
  ghost predicate OpenCalls(net: Network, source: nat, stack: seq<nat>)
  {
    && source < |net| && NoCycleFrom(net, net[source].outs)
    && stack != [] && stack[0] == source
    && Chain(net, net[source].outs, stack[1..])
  }

  /** The last handler of the stack is connected to `v`. */
  ghost predicate LeadsTo(net: Network, source: nat, stack: seq<nat>, v: nat)
  {
    OpenCalls(net, source, stack) && stack[|stack| - 1] < |net| && v in net[stack[|stack| - 1]].outs
  }

  /** The invariant of the machine. */
  ghost predicate Consistent(net: Network, p: Packet, source: nat, m: Moment)
  {
    var stack := OnStack(m.stack);
    && Topology(m.hs) == net && m.handler < |net| && InFlight(m.hs, p, stack)
    && match m.point
       case WriteEntered => LeadsTo(net, source, stack, m.handler)
       case WriteReturned => OpenCalls(net, source, stack)
       case ReadEntered =>
         OpenCalls(net, source, stack + [m.handler]) && (stack != [] ==> OpenCalls(net, source, stack))
       case ReadBooked => OpenCalls(net, source, stack)
       case ReadReturned => OpenCalls(net, source, stack) && stack[|stack| - 1] == m.handler
       case IoReturned =>
         && OpenCalls(net, source, stack) && net[m.handler].started
         && (net[m.handler].echoes ==> |stack| > 1 && stack[|stack| - 1] == m.handler)
  }

  lemma {:induction false} NextConsistent(net: Network, p: Packet, source: nat, m: Moment)
    requires Closed(net) && Consistent(net, p, source, m) && NextMoment(net, p, m).Some?
    ensures Consistent(net, p, source, NextMoment(net, p, m).value)
  {
    var v, stack := m.handler, OnStack(m.stack);
    match m.point
    case WriteEntered =>
      if Forwards(net, v) { OpenFurther(net, source, stack, v); }
    case ReadEntered =>
      Opened(m.hs, v, p, stack);
      assert OnStack(m.stack + [Frame(v, 0)]) == stack + [v];
    case ReadBooked => CallConsistent(net, p, source, m);
    case WriteReturned => CallConsistent(net, p, source, m);
    case ReadReturned => TopForwards(net, source, stack);
    case IoReturned => BookedConsistent(net, p, source, m);
  }

  lemma {:induction false} CallConsistent(net: Network, p: Packet, source: nat, m: Moment)
    requires Closed(net) && Consistent(net, p, source, m) && (m.point == ReadBooked || m.point == WriteReturned)
    requires NextMoment(net, p, m).Some?
    ensures Consistent(net, p, source, NextMoment(net, p, m).value)
  {
    var n := |m.stack| - 1;
    var Frame(u, k) := m.stack[n];
    assert u == OnStack(m.stack)[n] && u < |net|;
    if k < |net[u].outs| {
      var called := m.stack[..n] + [Frame(u, k + 1)];
      assert OnStack(called) == OnStack(m.stack);
      assert net[u].outs[k] in net[u].outs;
      assert NextMoment(net, p, m) == Some(Moment(WriteEntered, net[u].outs[k], m.hs, called));
    } else {
      assert NextMoment(net, p, m) == Some(Moment(ReadReturned, u, m.hs, m.stack));
    }
  }

  lemma {:induction false} BookedConsistent(net: Network, p: Packet, source: nat, m: Moment)
    requires Consistent(net, p, source, m) && m.point == IoReturned
    ensures NextMoment(net, p, m).Some? && Consistent(net, p, source, NextMoment(net, p, m).value)
  {
    var v := m.handler;
    assert net[v] == NodeOf(m.hs[v]);
    if net[v].echoes {
      var n := |m.stack| - 1;
      Unwinds(net, source, OnStack(m.stack));
      Repaid(m.hs, v, p, OnStack(m.stack)[..n]);
      assert OnStack(m.stack[..n]) == OnStack(m.stack)[..n];
    } else {
      NothingOwed(m.hs, v, p, OnStack(m.stack));
    }
  }

  lemma Unwinds(net: Network, source: nat, stack: seq<nat>)
    requires OpenCalls(net, source, stack) && |stack| > 1
    ensures OpenCalls(net, source, stack[..|stack| - 1])
    ensures stack == stack[..|stack| - 1] + [stack[|stack| - 1]]
  {
    assert stack[..|stack| - 1][1..] == stack[1..][..|stack| - 2];
  }

  lemma OpenFurther(net: Network, source: nat, stack: seq<nat>, v: nat)
    requires LeadsTo(net, source, stack, v) && Forwards(net, v)
    ensures OpenCalls(net, source, stack + [v])
  {
    assert (stack + [v])[1..] == stack[1..] + [v];
  }

  lemma TopForwards(net: Network, source: nat, stack: seq<nat>)
    requires OpenCalls(net, source, stack) && |stack| > 1
    ensures Forwards(net, stack[|stack| - 1])
  {
    assert stack[1..][|stack| - 2] == stack[|stack| - 1];
  }

  /** onNewData bumps the read ledger, so that the call counts as open from then on. */
  lemma Opened(hs: seq<View>, v: nat, p: Packet, stack: seq<nat>)
    requires v < |hs| && InFlight(hs, p, stack)
    ensures InFlight(hs[v := Relayed(hs[v], p)], p, stack + [v])
    ensures Topology(hs[v := Relayed(hs[v], p)]) == Topology(hs)
  {
  }

  /** Booking the write closes it. */
  lemma Repaid(hs: seq<View>, v: nat, p: Packet, stack: seq<nat>)
    requires v < |hs| && InFlight(hs, p, stack + [v])
    ensures InFlight(Booked(hs, v, p), p, stack)
    ensures Topology(Booked(hs, v, p)) == Topology(hs)
  {
  }

  /** A handler that does not relay owes nothing. */
  lemma NothingOwed(hs: seq<View>, v: nat, p: Packet, stack: seq<nat>)
    requires v < |hs| && InFlight(hs, p, stack) && !(hs[v].echo && hs[v].relay)
    ensures InFlight(Booked(hs, v, p), p, stack)
    ensures Topology(Booked(hs, v, p)) == Topology(hs)
  {
  }

  lemma {:induction false} OnceOnStack(net: Network, source: nat, stack: seq<nat>, v: nat)
    requires OpenCalls(net, source, stack) && v != source
    ensures Count(stack, v) == if v in stack then 1 else 0
  {
    assert stack == [source] + stack[1..];
    DistinctCount(stack[1..], v);
    CountConcat([source], stack[1..], v);
  }

  lemma {:induction false} DistinctCount(c: seq<nat>, v: nat)
    requires Distinct(c)
    ensures Count(c, v) == if v in c then 1 else 0
    decreases |c|
  {
    if c != [] {
      DistinctCount(c[1..], v);
      assert c == [c[0]] + c[1..];
      CountConcat([c[0]], c[1..], v);
    }
  }

  lemma {:induction false} ConsistentDebts(net: Network, p: Packet, source: nat, m: Moment)
    requires Consistent(net, p, source, m) && source < |net| && !net[source].echoes
    ensures DebtsHold(p, m)
  {
    var stack := OnStack(m.stack);
    forall v | 0 <= v < |m.hs| && m.hs[v].echo && m.hs[v].relay
      ensures m.hs[v].read - m.hs[v].written == if v in stack then |p| else 0
    {
      assert net[v] == NodeOf(m.hs[v]);
      if stack == [] {
        assert Count(stack, v) == 0;
      } else {
        OnceOnStack(net, source, stack, v);
      }
    }
  }

  lemma {:induction false} TraceConsistent(
    net: Network, p: Packet, source: nat, a: Moment, moments: seq<Moment>, b: Moment, k: nat)
    requires Closed(net) && Consistent(net, p, source, a) && Trace(net, p, a, moments, b) && k < |moments|
    ensures Consistent(net, p, source, moments[k])
    decreases k
  {
    if k > 0 {
      TraceConsistent(net, p, source, a, moments, b, k - 1);
      assert NextMoment(net, p, moments[k - 1]) == Some(moments[k]);
      NextConsistent(net, p, source, moments[k - 1]);
    }
  }

  /** The delivery of a packet from a handler without EchoIO, none of whose relays can come back: at each
      of its moments every debt is that of a delivery under way. */
  lemma {:induction false} DebtWhileOnStack(
    hs: seq<View>, p: Packet, source: nat, moments: seq<Moment>, b: Moment)
    requires Closed(Topology(hs)) && source < |hs| && !hs[source].echo && InFlight(hs, p, [])
    requires NoCycleFrom(Topology(hs), hs[source].outs)
    requires Trace(Topology(hs), p, Moment(ReadEntered, source, hs, []), moments, b)
    ensures forall k :: 0 <= k < |moments| ==> DebtsHold(p, moments[k])
  {
    var net := Topology(hs);
    var a := Moment(ReadEntered, source, hs, []);
    assert OnStack([]) == [] && OpenCalls(net, source, [] + [source]);
    forall k | 0 <= k < |moments|
      ensures DebtsHold(p, moments[k])
    {
      TraceConsistent(net, p, source, a, moments, b, k);
      ConsistentDebts(net, p, source, moments[k]);
    }
  }

  /** No engine owes anything between two deliveries. */
  lemma SoundInFlight(sys: Sys, p: Packet)
    requires Sound(sys)
    ensures InFlight(sys.hs, p, [])
  {
  }

  // ---------------------------------------------------------------------------------------------
  // The nested calls, piece by piece
  // ---------------------------------------------------------------------------------------------

  /** The moments of one writeData call of handler `v` that finds the handlers as `hs` and leaves them as
      `now`. */
  ghost predicate WriteTrace(
    net: Network, p: Packet, v: nat, hs: seq<View>, now: seq<View>, stack: seq<Frame>, moments: seq<Moment>)
  {
    Trace(net, p, Moment(WriteEntered, v, hs, stack), moments, Moment(WriteReturned, v, now, stack))
  }

  /** The stack while the delivery of `v` is under way and has called `k` connections. */
  function Calling(stack: seq<Frame>, v: nat, k: nat): seq<Frame>
  {
    stack + [Frame(v, k)]
  }

  /** The moments of a writeData call up to the return of the IO's writeData. */
  ghost predicate IoTrace(
    net: Network, p: Packet, v: nat, hs: seq<View>, mid: seq<View>, stack: seq<Frame>, moments: seq<Moment>)
    requires v < |net|
  {
    Trace(net, p, Moment(WriteEntered, v, hs, stack), moments,
          Moment(IoReturned, v, mid, if net[v].echoes then Calling(stack, v, |net[v].outs|) else stack))
  }

  /** Those of one onNewData call. */
  ghost predicate ReadTrace(
    net: Network, p: Packet, v: nat, hs: seq<View>, now: seq<View>, stack: seq<Frame>, moments: seq<Moment>)
    requires v < |net|
  {
    Trace(net, p, Moment(ReadEntered, v, hs, stack), moments,
          Moment(ReadReturned, v, now, Calling(stack, v, |net[v].outs|)))
  }

  /** Those from the booking of the read on. */
  ghost predicate EmitTrace(
    net: Network, p: Packet, v: nat, hs: seq<View>, now: seq<View>, stack: seq<Frame>, moments: seq<Moment>)
    requires v < |net|
  {
    Trace(net, p, Moment(ReadBooked, v, hs, Calling(stack, v, 0)), moments,
          Moment(ReadReturned, v, now, Calling(stack, v, |net[v].outs|)))
  }

  /** A handler that is not Started returns at once. */
  lemma {:induction false} NotStartedCall(
    hs: seq<View>, net: Network, depth: nat, v: nat, p: Packet, stack: seq<Frame>) returns (moments: seq<Moment>)
    requires v < |hs| && hs[v].status.state != Started && net == Topology(hs) && Returns(net, depth, [v])
    ensures WriteTrace(net, p, v, hs, hs, stack, moments) && EntriesOf(moments) == Visit(net, depth, v)
    ensures After(hs, Visit(net, depth, v), p) == hs
  {
    var entered := Moment(WriteEntered, v, hs, stack);
    AfterOne(hs, v, p);
    TraceOne(net, p, entered);
    TraceThen(net, p, entered, [entered], entered, Moment(WriteReturned, v, hs, stack));
    moments := [entered, Moment(WriteReturned, v, hs, stack)];
  }

  /** The write is booked after the IO has returned. */
  lemma {:induction false} BookedCall(
    net: Network, p: Packet, v: nat, hs: seq<View>, mid: seq<View>, stack: seq<Frame>, moments: seq<Moment>)
    requires v < |net| == |mid| && stack != [] && IoTrace(net, p, v, hs, mid, stack, moments)
    ensures var all := moments + [Moment(WriteReturned, v, Booked(mid, v, p), stack)];
            WriteTrace(net, p, v, hs, Booked(mid, v, p), stack, all) && EntriesOf(all) == EntriesOf(moments)
  {
    assert Calling(stack, v, |net[v].outs|)[..|stack|] == stack;
    TraceThen(net, p, Moment(WriteEntered, v, hs, stack), moments, moments[|moments| - 1],
              Moment(WriteReturned, v, Booked(mid, v, p), stack));
  }

  /** An IO that does not emit the packet again just returns. */
  lemma {:induction false} IoOnlyReturns(
    hs: seq<View>, net: Network, depth: nat, v: nat, p: Packet, stack: seq<Frame>) returns (moments: seq<Moment>)
    requires v < |hs| && net == Topology(hs) && Returns(net, depth, [v])
    requires net[v].started && !net[v].echoes
    ensures IoTrace(net, p, v, hs, hs, stack, moments) && EntriesOf(moments) == Visit(net, depth, v)
  {
    var entered := Moment(WriteEntered, v, hs, stack);
    TraceOne(net, p, entered);
    TraceThen(net, p, entered, [entered], entered, Moment(IoReturned, v, hs, stack));
    moments := [entered, Moment(IoReturned, v, hs, stack)];
  }

  /** An EchoIO has a delivery of its own between its writeData's entry and its return. */
  lemma {:induction false} EchoReturns(
    hs: seq<View>, now: seq<View>, net: Network, v: nat, p: Packet, stack: seq<Frame>, nested: seq<Moment>)
    returns (moments: seq<Moment>)
    requires v < |hs| == |now| && net == Topology(hs) && Forwards(net, v) && stack != []
    requires ReadTrace(net, p, v, hs, now, stack, nested)
    ensures IoTrace(net, p, v, hs, now, stack, moments) && EntriesOf(moments) == [v] + EntriesOf(nested)
  {
    var entered, start := Moment(WriteEntered, v, hs, stack), Moment(ReadEntered, v, hs, stack);
    var done := nested[|nested| - 1];
    TraceOne(net, p, entered);
    TraceJoin(net, p, entered, [entered], entered, start, nested, done);
    TraceThen(net, p, entered, [entered] + nested, done, done.(point := IoReturned));
    moments := [entered] + nested + [done.(point := IoReturned)];
  }

  /** onNewData books the read and then emits. */
  lemma {:induction false} ReadFirst(
    hs: seq<View>, now: seq<View>, net: Network, v: nat, p: Packet, stack: seq<Frame>, nested: seq<Moment>)
    returns (moments: seq<Moment>)
    requires v < |hs| == |net| && EmitTrace(net, p, v, hs[v := Relayed(hs[v], p)], now, stack, nested)
    ensures ReadTrace(net, p, v, hs, now, stack, moments) && EntriesOf(moments) == EntriesOf(nested)
  {
    var start := Moment(ReadEntered, v, hs, stack);
    TraceOne(net, p, start);
    TraceJoin(net, p, start, [start], start, nested[0], nested, nested[|nested| - 1]);
    moments := [start] + nested;
    assert [] + EntriesOf(nested) == EntriesOf(nested);
  }

  /** newData has been emitted to the connections before the `k`-th: the calls made are those of the walk
      up to there. */
  ghost predicate Emitted(
    hs: seq<View>, now: seq<View>, net: Network, depth: nat, v: nat, k: nat, p: Packet, stack: seq<Frame>,
    moments: seq<Moment>)
    requires v < |net| && Returns(net, depth, net[v].outs) && k <= |net[v].outs|
  {
    && now == After(hs, EntriesOf(moments), p) && Topology(now) == net
    && EntriesOf(moments) + Walk(net, depth, net[v].outs, k) == Walk(net, depth, net[v].outs, 0)
    && moments != []
    && var last := moments[|moments| - 1];
       && last.handler < |net| && (last.point == ReadBooked || last.point == WriteReturned)
       && last.hs == now && last.stack == Calling(stack, v, k)
       && Trace(net, p, Moment(ReadBooked, v, hs, Calling(stack, v, 0)), moments, last)
  }

  lemma {:induction false} EmittedNone(
    hs: seq<View>, net: Network, depth: nat, v: nat, p: Packet, stack: seq<Frame>)
    requires v < |net| && Returns(net, depth, net[v].outs) && net == Topology(hs)
    ensures Emitted(hs, hs, net, depth, v, 0, p, stack, [Moment(ReadBooked, v, hs, Calling(stack, v, 0))])
  {
    AfterNone(hs, p);
    TraceOne(net, p, Moment(ReadBooked, v, hs, Calling(stack, v, 0)));
  }

  /** The `k`-th connection's call comes next. */
  lemma {:induction false} EmittedOne(
    hs: seq<View>, now: seq<View>, net: Network, depth: nat, v: nat, k: nat, p: Packet, stack: seq<Frame>,
    moments: seq<Moment>, visit: seq<Moment>)
    requires v < |net| && Returns(net, depth, net[v].outs) && k < |net[v].outs| && net[v].outs[k] < |net|
    requires Returns(net, depth, [net[v].outs[k]])
    requires Emitted(hs, now, net, depth, v, k, p, stack, moments)
    requires EntriesOf(visit) == Visit(net, depth, net[v].outs[k])
    requires WriteTrace(net, p, net[v].outs[k], now, After(now, EntriesOf(visit), p), Calling(stack, v, k + 1), visit)
    ensures Emitted(hs, After(now, EntriesOf(visit), p), net, depth, v, k + 1, p, stack, moments + visit)
  {
    var last := moments[|moments| - 1];
    CallNext(net, p, last, v, k, stack);
    TraceJoin(net, p, moments[0], moments, last, visit[0], visit, visit[|visit| - 1]);
    AfterConcat(hs, EntriesOf(moments), EntriesOf(visit), p);
    TopologyAfter(now, EntriesOf(visit), p);
    WalkNext(net, depth, net[v].outs, k, EntriesOf(moments));
  }

  lemma CallNext(net: Network, p: Packet, m: Moment, v: nat, k: nat, stack: seq<Frame>)
    requires m.handler < |net| == |m.hs| && (m.point == ReadBooked || m.point == WriteReturned)
    requires v < |net| && k < |net[v].outs| && m.stack == Calling(stack, v, k)
    ensures NextMoment(net, p, m) == Some(Moment(WriteEntered, net[v].outs[k], m.hs, Calling(stack, v, k + 1)))
  {
    assert Calling(stack, v, k)[..|stack|] == stack;
  }

  lemma {:induction false} EmittedAll(
    hs: seq<View>, now: seq<View>, net: Network, depth: nat, v: nat, p: Packet, stack: seq<Frame>, moments: seq<Moment>)
    requires v < |net| && Returns(net, depth, net[v].outs)
    requires Emitted(hs, now, net, depth, v, |net[v].outs|, p, stack, moments)
    ensures var all := moments + [Moment(ReadReturned, v, now, Calling(stack, v, |net[v].outs|))];
            EmitTrace(net, p, v, hs, now, stack, all) && EntriesOf(all) == Walk(net, depth, net[v].outs, 0)
  {
    TraceThen(net, p, moments[0], moments, moments[|moments| - 1],
              Moment(ReadReturned, v, now, Calling(stack, v, |net[v].outs|)));
  }

  lemma WalkNext(net: Network, depth: nat, ts: seq<nat>, k: nat, calls: seq<nat>)
    requires Returns(net, depth, ts) && k < |ts| && Returns(net, depth, [ts[k]])
    ensures calls + Walk(net, depth, ts, k) == calls + Visit(net, depth, ts[k]) + Walk(net, depth, ts, k + 1)
  {
  }

  lemma ReturnsEach(net: Network, depth: nat, outs: seq<nat>, k: nat)
    requires Returns(net, depth, outs) && k < |outs|
    ensures Returns(net, depth, [outs[k]])
  {
    assert outs[k] in outs;
  }

  /** The handlers when `io.writeData` has returned and handler `v` has not booked the packet yet. */
  ghost function BeforeBooking(hs: seq<View>, net: Network, depth: nat, v: nat, p: Packet): seq<View>
    requires v < |hs| && Returns(net, depth, [v])
  {
    if Forwards(net, v) then
      assert v in [v];
      After(hs[v := Relayed(hs[v], p)], Walk(net, depth - 1, net[v].outs, 0), p)
    else hs
  }

  /** writeData on a Started handler: the read booked before the nested delivery and the write
      booked after it make one more call in front of the nested ones. */
  lemma {:induction false} StartedCall(hs: seq<View>, net: Network, depth: nat, v: nat, p: Packet)
    requires v < |hs| && hs[v].status.state == Started && net == Topology(hs) && Returns(net, depth, [v])
    ensures |BeforeBooking(hs, net, depth, v, p)| == |hs|
    ensures After(hs, Visit(net, depth, v), p) == Booked(BeforeBooking(hs, net, depth, v, p), v, p)
  {
    AfterOne(hs, v, p);
    if Forwards(net, v) {
      assert v in [v];
      var nested := Walk(net, depth - 1, net[v].outs, 0);
      AfterConcat(hs, [v], nested, p);
      BookedLast(hs[v], Count(nested, v), p);
    } else {
      assert Copies(p, 1) == [p];
    }
  }

  /** Booking the write after the nested calls comes to the same as booking it before them. */
  lemma BookedLast(h: View, n: nat, p: Packet)
    requires h.status.state == Started && h.echo && h.relay
    ensures var r := Credit(Relayed(h, p), n, p);
            Credit(Credit(h, 1, p), n, p) == r.(written := r.written + |p|, sent := r.sent + [p])
  {
  }

  // ---------------------------------------------------------------------------------------------
  // The machine comes to its end exactly where the nested calls return
  // ---------------------------------------------------------------------------------------------

  /** If the nested calls return, the machine goes through a writeData call to its end. */
  lemma {:induction false} VisitTrace(
    hs: seq<View>, net: Network, depth: nat, v: nat, p: Packet, stack: seq<Frame>) returns (moments: seq<Moment>)
    requires net == Topology(hs) && Closed(net) && v < |net| && Returns(net, depth, [v]) && stack != []
    ensures WriteTrace(net, p, v, hs, After(hs, Visit(net, depth, v), p), stack, moments)
    ensures EntriesOf(moments) == Visit(net, depth, v)
    decreases depth, 0, 0
  {
    if hs[v].status.state != Started {
      moments := NotStartedCall(hs, net, depth, v, p, stack);
    } else {
      StartedCall(hs, net, depth, v, p);
      if net[v].echoes {
        assert v in [v];
        moments := EchoTrace(hs, net, depth - 1, v, p, stack);
      } else {
        moments := IoOnlyReturns(hs, net, depth, v, p, stack);
      }
      var mid := BeforeBooking(hs, net, depth, v, p);
      BookedCall(net, p, v, hs, mid, stack, moments);
      moments := moments + [Moment(WriteReturned, v, Booked(mid, v, p), stack)];
    }
  }

  lemma {:induction false} EchoTrace(
    hs: seq<View>, net: Network, depth: nat, v: nat, p: Packet, stack: seq<Frame>) returns (moments: seq<Moment>)
    requires net == Topology(hs) && Closed(net) && Forwards(net, v) && Returns(net, depth, net[v].outs) && stack != []
    ensures var now := After(hs[v := Relayed(hs[v], p)], Walk(net, depth, net[v].outs, 0), p);
            IoTrace(net, p, v, hs, now, stack, moments)
    ensures EntriesOf(moments) == [v] + Walk(net, depth, net[v].outs, 0)
    decreases depth, 4, 0
  {
    var now;
    now, moments := DeliveryTrace(hs, net, depth, v, p, stack);
    moments := EchoReturns(hs, now, net, v, p, stack, moments);
  }

  lemma {:induction false} DeliveryTrace(
    hs: seq<View>, net: Network, depth: nat, v: nat, p: Packet, stack: seq<Frame>)
    returns (now: seq<View>, moments: seq<Moment>)
    requires net == Topology(hs) && Closed(net) && v < |net| && Returns(net, depth, net[v].outs)
    ensures now == After(hs[v := Relayed(hs[v], p)], Walk(net, depth, net[v].outs, 0), p)
    ensures ReadTrace(net, p, v, hs, now, stack, moments) && EntriesOf(moments) == Walk(net, depth, net[v].outs, 0)
    decreases depth, 3, 0
  {
    var booked := hs[v := Relayed(hs[v], p)];
    assert Topology(booked) == net;
    now, moments := WalkTrace(booked, net, depth, v, |net[v].outs|, p, stack);
    EmittedAll(booked, now, net, depth, v, p, stack, moments);
    moments := moments + [Moment(ReadReturned, v, now, Calling(stack, v, |net[v].outs|))];
    moments := ReadFirst(hs, now, net, v, p, stack, moments);
  }

  lemma {:induction false} WalkTrace(
    hs: seq<View>, net: Network, depth: nat, v: nat, k: nat, p: Packet, stack: seq<Frame>)
    returns (now: seq<View>, moments: seq<Moment>)
    requires net == Topology(hs) && Closed(net) && v < |net| && Returns(net, depth, net[v].outs) && k <= |net[v].outs|
    ensures Emitted(hs, now, net, depth, v, k, p, stack, moments)
    decreases depth, 2, k
  {
    if k == 0 {
      EmittedNone(hs, net, depth, v, p, stack);
      now, moments := hs, [Moment(ReadBooked, v, hs, Calling(stack, v, 0))];
    } else {
      now, moments := WalkTrace(hs, net, depth, v, k - 1, p, stack);
      now, moments := WalkOne(hs, now, net, depth, v, k - 1, p, stack, moments);
    }
  }

  lemma {:induction false} WalkOne(
    hs: seq<View>, now: seq<View>, net: Network, depth: nat, v: nat, k: nat, p: Packet, stack: seq<Frame>,
    moments: seq<Moment>) returns (next: seq<View>, all: seq<Moment>)
    requires Closed(net) && v < |net| && Returns(net, depth, net[v].outs) && k < |net[v].outs|
    requires Emitted(hs, now, net, depth, v, k, p, stack, moments)
    ensures Emitted(hs, next, net, depth, v, k + 1, p, stack, all)
    decreases depth, 1, 0
  {
    var t := net[v].outs[k];
    assert t in net[v].outs;
    ReturnsEach(net, depth, net[v].outs, k);
    var visit := VisitTrace(now, net, depth, t, p, Calling(stack, v, k + 1));
    EmittedOne(hs, now, net, depth, v, k, p, stack, moments, visit);
    next, all := After(now, EntriesOf(visit), p), moments + visit;
  }

  /** A run of the machine to its end. */
  ghost predicate Complete(net: Network, p: Packet, moments: seq<Moment>)
  {
    && moments != []
    && (forall k :: 0 < k < |moments| ==> NextMoment(net, p, moments[k - 1]) == Some(moments[k]))
    && NextMoment(net, p, moments[|moments| - 1]) == None
  }

  lemma NextIs(net: Network, p: Packet, moments: seq<Moment>, i: nat)
    requires Complete(net, p, moments) && i < |moments| && NextMoment(net, p, moments[i]).Some?
    ensures i + 1 < |moments| && moments[i + 1] == NextMoment(net, p, moments[i]).value
  {
    assert i + 1 < |moments| ==> NextMoment(net, p, moments[i + 1 - 1]) == Some(moments[i + 1]);
  }

  lemma {:induction false} ReturnsDeeper(net: Network, d: nat, e: nat, ts: seq<nat>)
    requires Returns(net, d, ts) && d <= e
    ensures Returns(net, e, ts)
    decreases d
  {
    forall t | t in ts && Forwards(net, t)
      ensures e > 0 && Returns(net, e - 1, net[t].outs)
    {
      ReturnsDeeper(net, d - 1, e - 1, net[t].outs);
    }
  }

  /** In a run that ends, every writeData call returns, and so do the calls nested in it. */
  lemma {:induction false} CallReturns(net: Network, p: Packet, moments: seq<Moment>, i: nat) returns (d: nat, j: nat)
    requires Closed(net) && Complete(net, p, moments) && i < |moments|
    requires moments[i].point == WriteEntered && moments[i].stack != []
    requires moments[i].handler < |net| == |moments[i].hs|
    ensures i < j < |moments| && Returns(net, d, [moments[i].handler]) && |moments[j].hs| == |net|
    ensures moments[j] == Moment(WriteReturned, moments[i].handler, moments[j].hs, moments[i].stack)
    decreases |moments| - i
  {
    var v, stack := moments[i].handler, moments[i].stack;
    NextIs(net, p, moments, i);
    if !net[v].started {
      d, j := 0, i + 1;
    } else if !net[v].echoes {
      NextIs(net, p, moments, i + 1);
      d, j := 0, i + 2;
    } else {
      NextIs(net, p, moments, i + 1);
      d, j := DeliveryReturns(net, p, moments, i + 2, stack, v, 0);
      NextIs(net, p, moments, j);
      NextIs(net, p, moments, j + 1);
      assert Calling(stack, v, |net[v].outs|)[..|stack|] == stack;
      assert net[v].outs[0..] == net[v].outs;
      d, j := d + 1, j + 2;
    }
  }

  lemma {:induction false} DeliveryReturns(
    net: Network, p: Packet, moments: seq<Moment>, i: nat, stack: seq<Frame>, v: nat, k: nat) returns (d: nat, j: nat)
    requires Closed(net) && Complete(net, p, moments) && i < |moments|
    requires moments[i].point == ReadBooked || moments[i].point == WriteReturned
    requires moments[i].handler < |net| == |moments[i].hs| && moments[i].stack == Calling(stack, v, k)
    requires v < |net| && k <= |net[v].outs|
    ensures i < j < |moments| && Returns(net, d, net[v].outs[k..]) && |moments[j].hs| == |net|
    ensures moments[j] == Moment(ReadReturned, v, moments[j].hs, Calling(stack, v, |net[v].outs|))
    decreases |moments| - i
  {
    var outs := net[v].outs;
    NextIs(net, p, moments, i);
    if k == |outs| {
      d, j := 0, i + 1;
    } else {
      CallNext(net, p, moments[i], v, k, stack);
      assert outs[k] in outs;
      var first, returned := CallReturns(net, p, moments, i + 1);
      d, j := DeliveryReturns(net, p, moments, returned, stack, v, k + 1);
      d := ReturnsBoth(net, first, outs[k], d, outs[k + 1..]);
      assert [outs[k]] + outs[k + 1..] == outs[k..];
    }
  }

  lemma {:induction false} ReturnsBoth(net: Network, d: nat, t: nat, e: nat, ts: seq<nat>) returns (f: nat)
    requires Returns(net, d, [t]) && Returns(net, e, ts)
    ensures Returns(net, f, [t] + ts)
  {
    f := if d <= e then e else d;
    ReturnsDeeper(net, d, f, [t]);
    ReturnsDeeper(net, e, f, ts);
    assert t in [t];
  }

  lemma {:induction false} SourceReturns(
    hs: seq<View>, net: Network, p: Packet, source: nat, moments: seq<Moment>) returns (d: nat)
    requires net == Topology(hs) && Closed(net) && source < |net|
    requires Complete(net, p, moments) && moments[0] == Moment(ReadEntered, source, hs, [])
    ensures Returns(net, d, net[source].outs)
  {
    NextIs(net, p, moments, 0);
    var j;
    d, j := DeliveryReturns(net, p, moments, 1, [], source, 0);
    assert net[source].outs[0..] == net[source].outs;
  }

  lemma {:induction false} SourceEnds(hs: seq<View>, net: Network, depth: nat, p: Packet, source: nat)
    returns (moments: seq<Moment>)
    requires net == Topology(hs) && Closed(net) && source < |net| && Returns(net, depth, net[source].outs)
    ensures Complete(net, p, moments) && moments[0] == Moment(ReadEntered, source, hs, [])
  {
    var now;
    now, moments := DeliveryTrace(hs, net, depth, source, p, []);
  }

  /** The delivery of what the IO of handler `source` emits comes to its end if and only if no chain of
      relays from there meets a handler twice. */
  lemma {:induction false} EndsExactly(hs: seq<View>, p: Packet, source: nat)
    requires Closed(Topology(hs)) && source < |hs|
    ensures (exists moments: seq<Moment> ::
               Complete(Topology(hs), p, moments) && moments[0] == Moment(ReadEntered, source, hs, [])) <==>
            NoCycleFrom(Topology(hs), hs[source].outs)
  {
    var net := Topology(hs);
    TerminatesExactly(net, hs[source].outs);
    assert net[source].outs == hs[source].outs;
    if moments: seq<Moment> :| Complete(net, p, moments) && moments[0] == Moment(ReadEntered, source, hs, []) {
      var d := SourceReturns(hs, net, p, source, moments);
      assert Returns(net, d, hs[source].outs);
    } else if Returns(net, |net|, net[source].outs) {
      var moments := SourceEnds(hs, net, |net|, p, source);
      assert false;
    }
  }

  /** Whatever run of the machine ends, its calls are those of the walk, and it leaves the handlers as the
      emission does. */
  lemma {:induction false} CompleteRun(hs: seq<View>, p: Packet, source: nat, moments: seq<Moment>)
    requires Closed(Topology(hs)) && source < |hs|
    requires Complete(Topology(hs), p, moments) && moments[0] == Moment(ReadEntered, source, hs, [])
    ensures Returns(Topology(hs), |hs|, hs[source].outs)
    ensures EntriesOf(moments) == Walk(Topology(hs), |hs|, hs[source].outs, 0)
    ensures moments[|moments| - 1].hs == Emission(hs, source, p)
  {
    var net := Topology(hs);
    var d := SourceReturns(hs, net, p, source, moments);
    assert net[source].outs == hs[source].outs && Returns(net, d, hs[source].outs);
    TerminatesExactly(net, hs[source].outs);
    var now, run := DeliveryTrace(hs, net, |net|, source, p, []);
    TraceUnique(net, p, run[0], run, run[|run| - 1], moments, moments[|moments| - 1]);
  }

  /** An engine's delivery is a complete run, at each of whose moments the debts hold. */
  lemma {:induction false} EngineRun(sys: Sys, n: nat, p: Packet, now: seq<View>, moments: seq<Moment>)
    requires Sound(sys) && Possible(sys, NewData(n, p))
    requires ReadTrace(Topology(sys.hs), p, n, sys.hs, now, [], moments)
    ensures Complete(Topology(sys.hs), p, moments)
    ensures forall i :: 0 <= i < |moments| ==> DebtsHold(p, moments[i])
  {
    SoundInFlight(sys, p);
    DebtWhileOnStack(sys.hs, p, n, moments, moments[|moments| - 1]);
  }
}
