/**
  The Engine and its handlers as one value, and the events that change it: the calls of its user
  and the signals of its IOs.  Runs of such events are what the lifecycle and ledger theorems are
  about.  The class in Proxy is proved against these functions.
*/
module EngineState {
  import opened HandlerState
  import opened Routing
  import opened Sequences
  import opened Wrappers

  /** `m_handlers`, each named by its position, and `m_started`. */
  datatype Sys = Sys(hs: seq<View>, started: bool)

  // ---------------------------------------------------------------------------------------------
  // Delivery
  // ---------------------------------------------------------------------------------------------

  function NodeOf(h: View): Node
  {
    Node(h.status.state == Started, h.echo && h.relay, h.outs)
  }

  function Topology(hs: seq<View>): (net: Network)
    ensures |net| == |hs| && forall i :: 0 <= i < |hs| ==> net[i] == NodeOf(hs[i])
  {
    seq(|hs|, i requires 0 <= i < |hs| => NodeOf(hs[i]))
  }

  function Copies<T>(x: T, n: nat): (r: seq<T>)
    ensures |r| == n && forall i :: 0 <= i < n ==> r[i] == x
  {
    seq(n, i => x)
  }

  function Bytes(p: Packet, n: nat): int
  {
    |p| * n
  }

  /** `h` after `n` calls of its `writeData` have returned. */
  function Credit(h: View, n: nat, p: Packet): View
  {
    if h.status.state != Started then h
    else h.(written := h.written + Bytes(p, n),
            sent := h.sent + Copies(p, n),
            read := if h.echo && h.relay then h.read + Bytes(p, n) else h.read)
  }

  /** The handlers after the `writeData` calls `calls`. */
  ghost function After(hs: seq<View>, calls: seq<nat>, p: Packet): (r: seq<View>)
    ensures |r| == |hs| && forall i :: 0 <= i < |hs| ==> r[i] == Credit(hs[i], Count(calls, i), p)
  {
    seq(|hs|, i requires 0 <= i < |hs| => Credit(hs[i], Count(calls, i), p))
  }

  function Relayed(h: View, p: Packet): View
  {
    h.(read := h.read + |p|)
  }

  /** The handlers after the IO of handler `i` emitted newData and every nested call returned. */
  ghost function Emission(hs: seq<View>, i: nat, p: Packet): (r: seq<View>)
    requires i < |hs| && Returns(Topology(hs), |hs|, hs[i].outs)
  {
    After(hs[i := Relayed(hs[i], p)], Walk(Topology(hs), |hs|, hs[i].outs, 0), p)
  }

  lemma BytesSum(p: Packet, m: nat, n: nat)
    ensures Bytes(p, m + n) == Bytes(p, m) + Bytes(p, n)
  {
  }

  lemma BytesNext(p: Packet, n: nat, one: bool)
    ensures Bytes(p, n + if one then 1 else 0) == Bytes(p, n) + if one then |p| else 0
  {
  }

  lemma CreditTwice(h: View, m: nat, n: nat, p: Packet)
    ensures Credit(Credit(h, m, p), n, p) == Credit(h, m + n, p)
  {
  }

  /** The effect of calls made one after another is that of all of them. */
  lemma {:induction false} AfterConcat(hs: seq<View>, a: seq<nat>, b: seq<nat>, p: Packet)
    ensures After(After(hs, a, p), b, p) == After(hs, a + b, p)
  {
    forall i | 0 <= i < |hs|
      ensures After(After(hs, a, p), b, p)[i] == After(hs, a + b, p)[i]
    {
      CountConcat(a, b, i);
      CreditTwice(hs[i], Count(a, i), Count(b, i), p);
    }
  }

  /** Exactly what one emission does to the ledgers of handler `v`, counted in connection paths. */
  lemma {:induction false} LedgersCountPaths(hs: seq<View>, i: nat, p: Packet, v: nat) returns (paths: set<seq<nat>>)
    requires i < |hs| && v < |hs| && NoCycleFrom(Topology(hs), hs[i].outs)
    ensures Returns(Topology(hs), |hs|, hs[i].outs)
    ensures forall q :: q in paths <==> IsPath(Topology(hs), hs[i].outs, q) && End(Topology(hs), hs[i].outs, q) == v
    ensures var own := if v == i then |p| else 0;
            var r := Emission(hs, i, p)[v];
            if hs[v].status.state == Started then
              && r.written == hs[v].written + |p| * |paths|
              && r.sent == hs[v].sent + Copies(p, |paths|)
              && r.read == hs[v].read + own + if hs[v].echo && hs[v].relay then |p| * |paths| else 0
            else
              r == hs[v].(read := hs[v].read + own)
  {
    TerminatesExactly(Topology(hs), hs[i].outs);
    paths := CallsCountPaths(Topology(hs), |hs|, hs[i].outs, v);
  }

  /** A delivery changes no state and no connection. */
  lemma TopologyAfter(hs: seq<View>, calls: seq<nat>, p: Packet)
    ensures Topology(After(hs, calls, p)) == Topology(hs)
  {
  }

  // ---------------------------------------------------------------------------------------------
  // statisticSummary
  // ---------------------------------------------------------------------------------------------

  function SumRead(hs: seq<View>): int
  {
    if hs == [] then 0 else SumRead(hs[..|hs| - 1]) + hs[|hs| - 1].read
  }

  function SumWritten(hs: seq<View>): int
  {
    if hs == [] then 0 else SumWritten(hs[..|hs| - 1]) + hs[|hs| - 1].written
  }

  lemma {:induction false} SumUpdate(hs: seq<View>, i: nat, h: View)
    requires i < |hs|
    ensures SumRead(hs[i := h]) == SumRead(hs) + h.read - hs[i].read
    ensures SumWritten(hs[i := h]) == SumWritten(hs) + h.written - hs[i].written
    decreases |hs|
  {
    var n := |hs| - 1;
    if i == n {
      assert hs[i := h][..n] == hs[..n];
    } else {
      SumUpdate(hs[..n], i, h);
      assert hs[i := h][..n] == hs[..n][i := h];
    }
  }

  ghost predicate Within(calls: seq<nat>, n: nat)
  {
    forall i :: 0 <= i < |calls| ==> calls[i] < n
  }

  /** How many of the calls reach a Started handler, and how many of those are relayed. */
  ghost function Accepted(hs: seq<View>, calls: seq<nat>): nat
    requires Within(calls, |hs|)
  {
    if calls == [] then 0
    else Accepted(hs, calls[..|calls| - 1]) + if hs[calls[|calls| - 1]].status.state == Started then 1 else 0
  }

  ghost function Relays(hs: seq<View>, calls: seq<nat>): nat
    requires Within(calls, |hs|)
  {
    if calls == [] then 0
    else Relays(hs, calls[..|calls| - 1]) + if Forwards(Topology(hs), calls[|calls| - 1]) then 1 else 0
  }

  lemma {:induction false} AfterNone(hs: seq<View>, p: Packet)
    ensures After(hs, [], p) == hs
  {
    forall i | 0 <= i < |hs|
      ensures After(hs, [], p)[i] == hs[i]
    {
      assert hs[i].sent + Copies(p, 0) == hs[i].sent;
    }
  }

  lemma {:induction false} AfterOne(hs: seq<View>, c: nat, p: Packet)
    requires c < |hs|
    ensures After(hs, [c], p) == hs[c := Credit(hs[c], 1, p)]
  {
    forall i | 0 <= i < |hs|
      ensures After(hs, [c], p)[i] == hs[c := Credit(hs[c], 1, p)][i]
    {
      assert hs[i].sent + Copies(p, 0) == hs[i].sent;
    }
  }

  lemma {:induction false} AfterAppend(hs: seq<View>, calls: seq<nat>, c: nat, p: Packet)
    requires c < |hs|
    ensures var mid := After(hs, calls, p);
            After(hs, calls + [c], p) == mid[c := Credit(mid[c], 1, p)]
  {
    AfterConcat(hs, calls, [c], p);
    AfterOne(After(hs, calls, p), c, p);
  }

  lemma {:induction false} SummaryStep(hs: seq<View>, calls: seq<nat>, c: nat, p: Packet)
    requires c < |hs|
    ensures var mid, r := After(hs, calls, p), After(hs, calls + [c], p);
            && SumWritten(r) == SumWritten(mid) + (if hs[c].status.state == Started then |p| else 0)
            && SumRead(r) == SumRead(mid) + (if Forwards(Topology(hs), c) then |p| else 0)
  {
    var mid := After(hs, calls, p);
    AfterAppend(hs, calls, c, p);
    SumUpdate(mid, c, Credit(mid[c], 1, p));
  }

  lemma {:induction false} BytesAccepted(hs: seq<View>, calls: seq<nat>, c: nat, p: Packet)
    requires Within(calls, |hs|) && c < |hs|
    ensures Bytes(p, Accepted(hs, calls + [c]))
         == Bytes(p, Accepted(hs, calls)) + (if hs[c].status.state == Started then |p| else 0)
    ensures Bytes(p, Relays(hs, calls + [c]))
         == Bytes(p, Relays(hs, calls)) + (if Forwards(Topology(hs), c) then |p| else 0)
  {
    assert (calls + [c])[..|calls|] == calls;
    BytesNext(p, Accepted(hs, calls), hs[c].status.state == Started);
    BytesNext(p, Relays(hs, calls), Forwards(Topology(hs), c));
  }

  lemma {:induction false} SummaryAfter(hs: seq<View>, calls: seq<nat>, p: Packet)
    requires Within(calls, |hs|)
    ensures SumWritten(After(hs, calls, p)) == SumWritten(hs) + Bytes(p, Accepted(hs, calls))
    ensures SumRead(After(hs, calls, p)) == SumRead(hs) + Bytes(p, Relays(hs, calls))
    decreases |calls|
  {
    if calls == [] {
      AfterNone(hs, p);
    } else {
      var before, c := calls[..|calls| - 1], calls[|calls| - 1];
      SummaryAfter(hs, before, p);
      SummaryStep(hs, before, c, p);
      BytesAccepted(hs, before, c, p);
      assert before + [c] == calls;
    }
  }

  /** One emission adds, over all handlers, the packet length for its own read, for each call that
      meets a Started handler, and for each packet an echo IO gave back. */
  lemma {:induction false} SummaryOfEmission(hs: seq<View>, i: nat, p: Packet)
    requires i < |hs| && Closed(Topology(hs)) && Returns(Topology(hs), |hs|, hs[i].outs)
    ensures var calls := Walk(Topology(hs), |hs|, hs[i].outs, 0);
            && Within(calls, |hs|)
            && SumWritten(Emission(hs, i, p)) == SumWritten(hs) + Bytes(p, Accepted(hs, calls))
            && SumRead(Emission(hs, i, p)) == SumRead(hs) + |p| + Bytes(p, Relays(hs, calls))
  {
    var net := Topology(hs);
    var calls := Walk(net, |hs|, hs[i].outs, 0);
    OutsWithin(net, i);
    WalkWithin(net, |hs|, hs[i].outs, 0);
    var hs' := hs[i := Relayed(hs[i], p)];
    assert Topology(hs') == net;
    SummaryAfter(hs', calls, p);
    SumUpdate(hs, i, Relayed(hs[i], p));
    AcceptedAlike(hs, hs', calls);
  }

  lemma {:induction false} AcceptedAlike(hs: seq<View>, hs': seq<View>, calls: seq<nat>)
    requires |hs| == |hs'| && Topology(hs) == Topology(hs') && Within(calls, |hs|)
    ensures Accepted(hs, calls) == Accepted(hs', calls) && Relays(hs, calls) == Relays(hs', calls)
    decreases |calls|
  {
    if calls != [] {
      AcceptedAlike(hs, hs', calls[..|calls| - 1]);
      var c := calls[|calls| - 1];
      assert Topology(hs)[c] == NodeOf(hs[c]) && Topology(hs')[c] == NodeOf(hs'[c]);
    }
  }

  lemma {:induction false} OutsWithin(net: Network, v: nat)
    requires Closed(net) && v < |net|
    ensures Within(net[v].outs, |net|)
  {
    forall j | 0 <= j < |net[v].outs|
      ensures net[v].outs[j] < |net|
    {
      assert net[v].outs[j] in net[v].outs;
    }
  }

  lemma {:induction false} WalkWithin(net: Network, depth: nat, ts: seq<nat>, k: nat)
    requires Closed(net) && k <= |ts| && Returns(net, depth, ts) && Within(ts, |net|)
    ensures Within(Walk(net, depth, ts, k), |net|)
    decreases depth, |ts| - k
  {
    if k < |ts| {
      if Forwards(net, ts[k]) {
        OutsWithin(net, ts[k]);
        WalkWithin(net, depth - 1, net[ts[k]].outs, 0);
      }
      WalkWithin(net, depth, ts, k + 1);
    }
  }

  // ---------------------------------------------------------------------------------------------
  // Events and runs
  // ---------------------------------------------------------------------------------------------

  /** `scripts[i]` and `script` are the control signals an IO emits while it starts; an EchoIO
      always emits started, whatever is given here. */
  datatype Event =
    | AddIO(name: string, echo: bool, script: seq<Control>)
    | AddConnection(src: string, dst: string)
    | StartAll(scripts: seq<seq<Control>>)
    | StopAll
    | Signal(from: nat, c: Control)
    | NewData(source: nat, p: Packet)

  function ScriptOf(echo: bool, script: seq<Control>): seq<Control>
  {
    if echo then [IoStarted] else script
  }

  function ScriptAt(scripts: seq<seq<Control>>, i: nat): seq<Control>
  {
    if i < |scripts| then scripts[i] else []
  }

  /** The first handler from position `k` on whose name matches, `fold` being the case folding. */
  function FindFrom(fold: string -> string, hs: seq<View>, id: string, k: nat): (r: Option<nat>)
    requires k <= |hs|
    ensures match r
            case Some(i) =>
              && k <= i < |hs| && fold(hs[i].name) == fold(id)
              && forall j :: k <= j < i ==> fold(hs[j].name) != fold(id)
            case None => forall j :: k <= j < |hs| ==> fold(hs[j].name) != fold(id)
    decreases |hs| - k
  {
    if k == |hs| then None
    else if fold(hs[k].name) == fold(id) then Some(k)
    else FindFrom(fold, hs, id, k + 1)
  }

  function Find(fold: string -> string, hs: seq<View>, id: string): Option<nat>
  {
    FindFrom(fold, hs, id, 0)
  }

  function AddedIO(sys: Sys, name: string, echo: bool, script: seq<Control>): Sys
  {
    var h := Created(name, echo);
    sys.(hs := sys.hs + [if sys.started then Start(h, ScriptOf(echo, script)) else h])
  }

  /** `AddConnection` leaves the engine unchanged when either name is unknown. */
  function Connected(fold: string -> string, sys: Sys, src: string, dst: string): Sys
  {
    match (Find(fold, sys.hs, src), Find(fold, sys.hs, dst))
    case (Some(s), Some(d)) => sys.(hs := sys.hs[s := sys.hs[s].(outs := sys.hs[s].outs + [d])])
    case _ => sys
  }

  function StartedHandlers(hs: seq<View>, scripts: seq<seq<Control>>): (r: seq<View>)
  {
    seq(|hs|, i requires 0 <= i < |hs| => Start(hs[i], ScriptOf(hs[i].echo, ScriptAt(scripts, i))))
  }

  /** The first `n` handlers have been started. */
  ghost predicate StartedUpTo(hs: seq<View>, now: seq<View>, scripts: seq<seq<Control>>, n: nat)
  {
    && |now| == |hs|
    && forall i :: 0 <= i < |hs| ==>
         now[i] == if i < n then Start(hs[i], ScriptOf(hs[i].echo, ScriptAt(scripts, i))) else hs[i]
  }

  lemma StartedNext(hs: seq<View>, now: seq<View>, scripts: seq<seq<Control>>, n: nat)
    requires n < |hs| && StartedUpTo(hs, now, scripts, n)
    ensures StartedUpTo(hs, now[n := Start(now[n], ScriptOf(now[n].echo, ScriptAt(scripts, n)))], scripts, n + 1)
  {
  }

  function StartedAll(sys: Sys, scripts: seq<seq<Control>>): (r: Sys)
  {
    if sys.started then sys else Sys(StartedHandlers(sys.hs, scripts), true)
  }

  function StoppedHandlers(hs: seq<View>): (r: seq<View>)
  {
    seq(|hs|, i requires 0 <= i < |hs| => Stop(hs[i]))
  }

  function StoppedAll(sys: Sys): (r: Sys)
  {
    Sys(StoppedHandlers(sys.hs), false)
  }

  function Signalled(sys: Sys, i: nat, c: Control): Sys
    requires i < |sys.hs|
  {
    var h := sys.hs[i];
    sys.(hs := sys.hs[i := h.(status := Raise(h.status, [c], h.controls))])
  }

  /** The IO of handler `i` emits newData; without its relay nobody receives it. */
  ghost function Delivered(sys: Sys, i: nat, p: Packet): Sys
    requires i < |sys.hs| && Returns(Topology(sys.hs), |sys.hs|, sys.hs[i].outs)
  {
    if sys.hs[i].relay then sys.(hs := Emission(sys.hs, i, p)) else sys
  }

  /** Events that can happen and come to an end: signals come from IOs that exist, an EchoIO emits
      newData only from inside writeData, and the nested calls of an emission return. */
  ghost predicate Possible(sys: Sys, e: Event)
  {
    match e
    case Signal(i, _) => i < |sys.hs|
    case NewData(i, _) => i < |sys.hs| && !sys.hs[i].echo && NoCycleFrom(Topology(sys.hs), sys.hs[i].outs)
    case _ => true
  }

  ghost function Step(fold: string -> string, sys: Sys, e: Event): Sys
    requires Possible(sys, e)
  {
    match e
    case AddIO(name, echo, script) => AddedIO(sys, name, echo, script)
    case AddConnection(src, dst) => Connected(fold, sys, src, dst)
    case StartAll(scripts) => StartedAll(sys, scripts)
    case StopAll => StoppedAll(sys)
    case Signal(i, c) => Signalled(sys, i, c)
    case NewData(i, p) =>
      TerminatesExactly(Topology(sys.hs), sys.hs[i].outs);
      Delivered(sys, i, p)
  }

  /** The engine after a run of events from a new Engine, if every event was possible. */
  ghost function Exec(fold: string -> string, es: seq<Event>): Option<Sys>
    decreases |es|
  {
    if es == [] then Some(Sys([], false))
    else
      match Exec(fold, es[..|es| - 1])
      case None => None
      case Some(sys) => if Possible(sys, es[|es| - 1]) then Some(Step(fold, sys, es[|es| - 1])) else None
  }

  // ---------------------------------------------------------------------------------------------
  // What every reachable engine satisfies
  // ---------------------------------------------------------------------------------------------

  lemma {:induction false} TotalBytesCopies(ps: seq<Packet>, p: Packet, n: nat)
    ensures TotalBytes(ps + Copies(p, n)) == TotalBytes(ps) + Bytes(p, n)
    decreases n
  {
    if n == 0 {
      assert ps + Copies(p, 0) == ps;
    } else {
      TotalBytesCopies(ps, p, n - 1);
      BytesSum(p, n - 1, 1);
      var fewer := ps + Copies(p, n - 1);
      assert ps + Copies(p, n) == fewer + [p];
      assert (fewer + [p])[..|fewer|] == fewer;
    }
  }

  /** The ledgers of one handler: what it wrote is what it handed to its IO, and an echo handler
      that was never stopped has read back everything it wrote. */
  ghost predicate Balanced(h: View)
  {
    && h.written == TotalBytes(h.sent)
    && (h.echo && h.relay ==> h.read == h.written)
  }

  /** One set of control connections exactly while the engine is started. */
  ghost predicate Wired(h: View, started: bool)
  {
    h.controls == if started then 1 else 0
  }

  ghost predicate Sound(sys: Sys)
  {
    && Closed(Topology(sys.hs))
    && forall i :: 0 <= i < |sys.hs| ==> Balanced(sys.hs[i]) && Wired(sys.hs[i], sys.started)
  }

  lemma {:induction false} CreditBalanced(h: View, n: nat, p: Packet)
    requires Balanced(h)
    ensures Balanced(Credit(h, n, p))
  {
    TotalBytesCopies(h.sent, p, n);
  }

  lemma {:induction false} EmissionSound(sys: Sys, i: nat, p: Packet)
    requires Sound(sys) && i < |sys.hs| && Returns(Topology(sys.hs), |sys.hs|, sys.hs[i].outs)
    requires !sys.hs[i].echo
    ensures Sound(Delivered(sys, i, p))
  {
    if sys.hs[i].relay {
      var calls := Walk(Topology(sys.hs), |sys.hs|, sys.hs[i].outs, 0);
      var hs' := sys.hs[i := Relayed(sys.hs[i], p)];
      TopologyAfter(hs', calls, p);
      assert Topology(hs') == Topology(sys.hs);
      forall v | 0 <= v < |sys.hs|
        ensures Balanced(After(hs', calls, p)[v])
      {
        assert Balanced(hs'[v]);
        CreditBalanced(hs'[v], Count(calls, v), p);
      }
    }
  }

  lemma {:induction false} StepSound(fold: string -> string, sys: Sys, e: Event)
    requires Sound(sys) && Possible(sys, e)
    ensures Sound(Step(fold, sys, e))
  {
    if e.NewData? {
      TerminatesExactly(Topology(sys.hs), sys.hs[e.source].outs);
      EmissionSound(sys, e.source, e.p);
    } else {
      var r := Step(fold, sys, e);
      forall v, t | 0 <= v < |r.hs| && t in Topology(r.hs)[v].outs
        ensures t < |r.hs|
      {
        if v < |sys.hs| && t in sys.hs[v].outs { assert t in Topology(sys.hs)[v].outs; }
      }
    }
  }

  lemma {:induction false} RunSound(fold: string -> string, es: seq<Event>)
    requires Exec(fold, es).Some?
    ensures Sound(Exec(fold, es).value)
    decreases |es|
  {
    if es != [] {
      RunSound(fold, es[..|es| - 1]);
      StepSound(fold, Exec(fold, es[..|es| - 1]).value, es[|es| - 1]);
    }
  }

  function Adds(es: seq<Event>): nat
    decreases |es|
  {
    if es == [] then 0 else Adds(es[..|es| - 1]) + if es[|es| - 1].AddIO? then 1 else 0
  }

  /** The engine was stopped after handler `i` was added. */
  predicate StoppedSince(es: seq<Event>, i: nat)
    decreases |es|
  {
    es != [] && (StoppedSince(es[..|es| - 1], i) || (es[|es| - 1].StopAll? && i < Adds(es[..|es| - 1])))
  }

  lemma StepGrows(fold: string -> string, sys: Sys, e: Event)
    requires Possible(sys, e)
    ensures |Step(fold, sys, e).hs| == |sys.hs| + if e.AddIO? then 1 else 0
  {
  }

  /** What a step does to the connections and to the read ledger of a handler that was there. */
  lemma StepKeeps(fold: string -> string, sys: Sys, e: Event, i: nat)
    requires Possible(sys, e) && i < |sys.hs|
    ensures var r := Step(fold, sys, e);
            && |r.hs| >= |sys.hs|
            && (r.hs[i].relay <==> sys.hs[i].relay && !e.StopAll?)
            && (!sys.hs[i].relay ==> r.hs[i].read == sys.hs[i].read)
  {
  }

  /** A handler relays what its IO emits exactly until the first stop after it was added; starting
      the engine again does not bring the relay back. */
  lemma {:induction false} RelayUntilFirstStop(fold: string -> string, es: seq<Event>)
    requires Exec(fold, es).Some?
    ensures var hs := Exec(fold, es).value.hs;
            |hs| == Adds(es) && forall i :: 0 <= i < |hs| ==> (hs[i].relay <==> !StoppedSince(es, i))
    decreases |es|
  {
    if es != [] {
      var before, e := es[..|es| - 1], es[|es| - 1];
      RelayUntilFirstStop(fold, before);
      var sys := Exec(fold, before).value;
      var hs := Step(fold, sys, e).hs;
      StepGrows(fold, sys, e);
      forall i | 0 <= i < |sys.hs|
        ensures hs[i].relay <==> !StoppedSince(es, i)
      {
        StepKeeps(fold, sys, e, i);
      }
      if e.AddIO? { NotStoppedYet(before, |sys.hs|); }
    }
  }

  lemma {:induction false} NotStoppedYet(es: seq<Event>, i: nat)
    requires i >= Adds(es)
    ensures !StoppedSince(es, i)
    decreases |es|
  {
    if es != [] { NotStoppedYet(es[..|es| - 1], i); }
  }

  lemma {:induction false} ExecLast(fold: string -> string, es: seq<Event>, e: Event)
    requires Exec(fold, es + [e]).Some?
    ensures Exec(fold, es).Some? && Possible(Exec(fold, es).value, e)
    ensures Exec(fold, es + [e]).value == Step(fold, Exec(fold, es).value, e)
  {
    assert (es + [e])[..|es|] == es;
  }

  /** What a once stopped handler has read never changes again, restarts included. */
  lemma {:induction false} StoppedReadsFrozen(fold: string -> string, es: seq<Event>, more: seq<Event>, i: nat)
    requires Exec(fold, es + more).Some? && StoppedSince(es, i) && i < Adds(es)
    ensures Exec(fold, es).Some? && i < |Exec(fold, es).value.hs| <= |Exec(fold, es + more).value.hs|
    ensures Exec(fold, es + more).value.hs[i].read == Exec(fold, es).value.hs[i].read
    ensures !Exec(fold, es + more).value.hs[i].relay
    decreases |more|
  {
    if more == [] {
      assert es + more == es;
      RelayUntilFirstStop(fold, es);
    } else {
      var before, e := more[..|more| - 1], more[|more| - 1];
      assert es + more == es + before + [e];
      ExecLast(fold, es + before, e);
      StoppedReadsFrozen(fold, es, before, i);
      StepKeeps(fold, Exec(fold, es + before).value, e, i);
    }
  }

  // ---------------------------------------------------------------------------------------------
  // A delivery that does not return
  // ---------------------------------------------------------------------------------------------

  lemma {:induction false} ExecNext(fold: string -> string, es: seq<Event>, e: Event)
    requires Exec(fold, es).Some? && Possible(Exec(fold, es).value, e)
    ensures Exec(fold, es + [e]) == Some(Step(fold, Exec(fold, es).value, e))
  {
    assert (es + [e])[..|es|] == es;
  }

  lemma {:induction false} FindTwo(fold: string -> string, hs: seq<View>, a: string, b: string)
    requires |hs| == 2 && hs[0].name == a && hs[1].name == b && fold(a) != fold(b)
    ensures Find(fold, hs, a) == Some(0) && Find(fold, hs, b) == Some(1)
  {
    assert FindFrom(fold, hs, b, 1) == Some(1);
  }

  /** An echo connected to itself, and a source connected to the echo. */
  function EchoLoop(a: string, b: string): seq<Event>
  {
    [AddIO(a, true, []), AddIO(b, false, []), AddConnection(b, a), AddConnection(a, a), StartAll([])]
  }

  function EchoLoopHandlers(a: string, b: string): seq<View>
  {
    [Start(Created(a, true).(outs := [0]), [IoStarted]), Start(Created(b, false).(outs := [0]), [])]
  }

  lemma {:induction false} EchoLoopAdded(fold: string -> string, a: string, b: string)
    ensures Exec(fold, EchoLoop(a, b)[..2]) == Some(Sys([Created(a, true), Created(b, false)], false))
  {
    var es := EchoLoop(a, b);
    var none, one := Sys([], false), Sys([Created(a, true)], false);
    assert [] + [es[0]] == es[..1] && es[..1] + [es[1]] == es[..2];
    ExecNext(fold, [], es[0]);
    assert AddedIO(none, a, true, []) == one;
    ExecNext(fold, es[..1], es[1]);
    assert [Created(a, true)] + [Created(b, false)] == [Created(a, true), Created(b, false)];
  }

  lemma {:induction false} EchoLoopConnected(fold: string -> string, a: string, b: string)
    requires fold(a) != fold(b)
    ensures Exec(fold, EchoLoop(a, b)[..4])
         == Some(Sys([Created(a, true).(outs := [0]), Created(b, false).(outs := [0])], false))
  {
    var es, x, y := EchoLoop(a, b), Created(a, true), Created(b, false);
    var x', y' := x.(outs := [0]), y.(outs := [0]);
    assert es[..2] + [es[2]] == es[..3] && es[..3] + [es[3]] == es[..4];
    EchoLoopAdded(fold, a, b);
    FindTwo(fold, [x, y], a, b);
    ExecNext(fold, es[..2], es[2]);
    assert y.outs + [0] == [0] && [x, y][1 := y'] == [x, y'];
    FindTwo(fold, [x, y'], a, b);
    ExecNext(fold, es[..3], es[3]);
    assert x.outs + [0] == [0] && [x, y'][0 := x'] == [x', y'];
  }

  lemma {:induction false} EchoLoopRuns(fold: string -> string, a: string, b: string)
    requires fold(a) != fold(b)
    ensures Exec(fold, EchoLoop(a, b)) == Some(Sys(EchoLoopHandlers(a, b), true))
  {
    var es := EchoLoop(a, b);
    EchoLoopConnected(fold, a, b);
    ExecNext(fold, es[..4], es[4]);
    assert es[..4] + [es[4]] == es;
    var connected := [Created(a, true).(outs := [0]), Created(b, false).(outs := [0])];
    assert StartedHandlers(connected, []) == EchoLoopHandlers(a, b);
  }

  /** For any two names that differ after folding, this run is possible, nothing in it is refused, and
      what the source emits afterwards is never delivered to the end. */
  lemma {:induction false} EchoLoopNeverReturns(fold: string -> string, a: string, b: string, p: Packet)
    requires fold(a) != fold(b)
    ensures Exec(fold, EchoLoop(a, b)).Some? && |Exec(fold, EchoLoop(a, b)).value.hs| == 2
    ensures var sys := Exec(fold, EchoLoop(a, b)).value;
            && sys.started && sys.hs[0].outs == sys.hs[1].outs == [0] && !Possible(sys, NewData(1, p))
            && forall depth: nat :: !Returns(Topology(sys.hs), depth, sys.hs[1].outs)
  {
    EchoLoopRuns(fold, a, b);
    EchoLoopStarted(a);
    SelfLoop(Topology(EchoLoopHandlers(a, b)), [0]);
    TerminatesExactly(Topology(EchoLoopHandlers(a, b)), [0]);
  }

  lemma SelfLoop(net: Network, ts: seq<nat>)
    requires Forwards(net, 0) && net[0].outs == ts == [0]
    ensures !NoCycleFrom(net, ts)
  {
    var c: seq<nat> := [0, 0];
    assert Chain(net, ts, c) && c[0] == c[1];
  }

  lemma {:induction false} EchoLoopStarted(a: string)
    ensures Start(Created(a, true).(outs := [0]), [IoStarted]).status.state == Started
  {
    DuplicatesAreOne(Created(a, true).status, IoStarted, 1);
  }

  // ---------------------------------------------------------------------------------------------
  // What the run of the engine is for one handler
  // ---------------------------------------------------------------------------------------------

  /** The engine has been started and not stopped since. */
  predicate Running(es: seq<Event>)
    decreases |es|
  {
    es != [] &&
    match es[|es| - 1]
    case StartAll(_) => true
    case StopAll => false
    case _ => Running(es[..|es| - 1])
  }

  /** Handler `i` when it was added. */
  function AddedAs(es: seq<Event>, i: nat): View
    requires i < Adds(es)
    decreases |es|
  {
    var before, e := es[..|es| - 1], es[|es| - 1];
    if i < Adds(before) then AddedAs(before, i) else Created(e.name, e.echo)
  }

  /** What an event is for handler `i`, which is there already: a start with the signals its IO emits
      meanwhile, an EchoIO just started, a stop, or a later signal of its IO. */
  function CallIn(running: bool, echo: bool, e: Event, i: nat): Option<Call>
  {
    match e
    case StartAll(scripts) =>
      if running then None
      else Some(StartCall(if echo then [IoStarted] else if i < |scripts| then scripts[i] else []))
    case StopAll => Some(StopCall)
    case Signal(j, c) => if j == i then Some(SignalCall(c)) else None
    case _ => None
  }

  /** What all events of a run are for handler `i`. */
  function CallsOf(es: seq<Event>, i: nat): seq<Call>
    decreases |es|
  {
    if i >= Adds(es) then []
    else
      var before, e := es[..|es| - 1], es[|es| - 1];
      if i >= Adds(before) then
        if !Running(before) then [] else [StartCall(if e.echo then [IoStarted] else e.script)]
      else
        match CallIn(Running(before), AddedAs(before, i).echo, e, i)
        case None => CallsOf(before, i)
        case Some(call) => CallsOf(before, i) + [call]
  }

  /** `h` and `r` differ at most in ledgers and connections to other handlers. */
  ghost predicate SameControl(h: View, r: View)
  {
    h.name == r.name && h.echo == r.echo && h.status == r.status && h.relay == r.relay && h.controls == r.controls
  }

  lemma {:induction false} RunAppend(h: View, calls: seq<Call>, call: Call)
    ensures Run(h, calls + [call]) == AfterCall(Run(h, calls), call)
  {
    assert (calls + [call])[..|calls|] == calls;
  }

  /** In every run a handler is, ledgers and targets apart, what its own calls make of a new handler. */
  lemma {:induction false} HandlersFollowCalls(fold: string -> string, es: seq<Event>)
    requires Exec(fold, es).Some?
    ensures var sys := Exec(fold, es).value;
            && |sys.hs| == Adds(es) && (sys.started <==> Running(es))
            && forall i :: 0 <= i < |sys.hs| ==> SameControl(Run(AddedAs(es, i), CallsOf(es, i)), sys.hs[i])
    decreases |es|
  {
    if es != [] {
      var before, e := es[..|es| - 1], es[|es| - 1];
      HandlersFollowCalls(fold, before);
      var sys := Exec(fold, before).value;
      StepGrows(fold, sys, e);
      forall i | 0 <= i < |Step(fold, sys, e).hs|
        ensures SameControl(Run(AddedAs(es, i), CallsOf(es, i)), Step(fold, sys, e).hs[i])
      {
        if i < |sys.hs| { HandlerFollows(fold, es, sys, i); } else { NewHandlerFollows(fold, es, sys); }
      }
    }
  }

  lemma StepIsCall(fold: string -> string, sys: Sys, e: Event, i: nat)
    requires Possible(sys, e) && i < |sys.hs|
    ensures i < |Step(fold, sys, e).hs|
    ensures SameControl(match CallIn(sys.started, sys.hs[i].echo, e, i)
                        case None => sys.hs[i]
                        case Some(call) => AfterCall(sys.hs[i], call),
                        Step(fold, sys, e).hs[i])
  {
  }

  lemma SameCall(h: View, r: View, call: Call)
    requires SameControl(h, r)
    ensures SameControl(AfterCall(h, call), AfterCall(r, call))
  {
  }

  lemma {:induction false} HandlerFollows(fold: string -> string, es: seq<Event>, sys: Sys, i: nat)
    requires es != [] && Exec(fold, es[..|es| - 1]) == Some(sys) && Possible(sys, es[|es| - 1])
    requires i < |sys.hs| == Adds(es[..|es| - 1]) && (sys.started <==> Running(es[..|es| - 1]))
    requires SameControl(Run(AddedAs(es[..|es| - 1], i), CallsOf(es[..|es| - 1], i)), sys.hs[i])
    ensures i < Adds(es) && i < |Step(fold, sys, es[|es| - 1]).hs|
    ensures SameControl(Run(AddedAs(es, i), CallsOf(es, i)), Step(fold, sys, es[|es| - 1]).hs[i])
  {
    var before, e := es[..|es| - 1], es[|es| - 1];
    var h, prior := AddedAs(before, i), CallsOf(before, i);
    RunKeepsLedgers(h, prior);
    StepIsCall(fold, sys, e, i);
    match CallIn(sys.started, h.echo, e, i)
    case None =>
    case Some(call) =>
      RunAppend(h, prior, call);
      SameCall(Run(h, prior), sys.hs[i], call);
  }

  lemma {:induction false} NewHandlerFollows(fold: string -> string, es: seq<Event>, sys: Sys)
    requires es != [] && Exec(fold, es[..|es| - 1]) == Some(sys) && Possible(sys, es[|es| - 1])
    requires es[|es| - 1].AddIO? && |sys.hs| == Adds(es[..|es| - 1]) && (sys.started <==> Running(es[..|es| - 1]))
    ensures |sys.hs| < Adds(es)
    ensures SameControl(Run(AddedAs(es, |sys.hs|), CallsOf(es, |sys.hs|)), Step(fold, sys, es[|es| - 1]).hs[|sys.hs|])
  {
    var e := es[|es| - 1];
    if sys.started {
      RunAppend(Created(e.name, e.echo), [], StartCall(if e.echo then [IoStarted] else e.script));
    }
  }

  /** So in every run each handler has the state and the message of the last signal its IO had delivered. */
  lemma {:induction false} EngineSaysLast(fold: string -> string, es: seq<Event>, i: nat)
    requires Exec(fold, es).Some? && i < |Exec(fold, es).value.hs|
    ensures SaidLast(Exec(fold, es).value.hs[i].status, LastDelivered(CallsOf(es, i)))
  {
    HandlersFollowCalls(fold, es);
    AddedIsNew(es, i);
    var h := AddedAs(es, i);
    RunSaysLast(h.name, h.echo, CallsOf(es, i));
  }

  lemma {:induction false} AddedIsNew(es: seq<Event>, i: nat)
    requires i < Adds(es)
    ensures AddedAs(es, i) == Created(AddedAs(es, i).name, AddedAs(es, i).echo)
    decreases |es|
  {
    if i < Adds(es[..|es| - 1]) { AddedIsNew(es[..|es| - 1], i); }
  }

  // ---------------------------------------------------------------------------------------------
  // Order
  // ---------------------------------------------------------------------------------------------

  /** How many copies event `e` hands to the IO of handler `i`. */
  ghost function Fed(sys: Sys, e: Event, i: nat): nat
    requires Possible(sys, e)
  {
    if e.NewData? && sys.hs[e.source].relay && i < |sys.hs| && sys.hs[i].status.state == Started then
      TerminatesExactly(Topology(sys.hs), sys.hs[e.source].outs);
      Count(Walk(Topology(sys.hs), |sys.hs|, sys.hs[e.source].outs, 0), i)
    else 0
  }

  lemma StepSends(fold: string -> string, sys: Sys, e: Event, i: nat)
    requires Possible(sys, e) && i < |Step(fold, sys, e).hs|
    ensures Step(fold, sys, e).hs[i].sent ==
            (if i < |sys.hs| then sys.hs[i].sent else []) + if e.NewData? then Copies(e.p, Fed(sys, e, i)) else []
  {
  }

  /** How many bytes the IO of handler `i` gives to its relay in event `e`: what it emits itself, and what
      an EchoIO emits again. */
  ghost function GivenBy(sys: Sys, e: Event, i: nat): int
    requires Possible(sys, e)
  {
    if e.NewData? && i < |sys.hs| && sys.hs[i].relay then
      (if e.source == i then |e.p| else 0) + if sys.hs[i].echo then |e.p| * Fed(sys, e, i) else 0
    else 0
  }

  lemma StepReads(fold: string -> string, sys: Sys, e: Event, i: nat)
    requires Possible(sys, e) && i < |Step(fold, sys, e).hs|
    ensures Step(fold, sys, e).hs[i].read == (if i < |sys.hs| then sys.hs[i].read else 0) + GivenBy(sys, e, i)
  {
  }

  /** The sum of these bytes over a run. */
  ghost function GivenIn(fold: string -> string, es: seq<Event>, i: nat): int
    requires Exec(fold, es).Some?
    decreases |es|
  {
    if es == [] then 0
    else GivenIn(fold, es[..|es| - 1], i) + GivenBy(Exec(fold, es[..|es| - 1]).value, es[|es| - 1], i)
  }

  /** In every run a handler has read exactly what its IO gave to its relay. */
  lemma {:induction false} ReadsOfRun(fold: string -> string, es: seq<Event>, i: nat)
    requires Exec(fold, es).Some?
    ensures var hs := Exec(fold, es).value.hs;
            GivenIn(fold, es, i) == if i < |hs| then hs[i].read else 0
    decreases |es|
  {
    if es != [] {
      var sys, e := Exec(fold, es[..|es| - 1]).value, es[|es| - 1];
      ReadsOfRun(fold, es[..|es| - 1], i);
      StepGrows(fold, sys, e);
      if i < |Step(fold, sys, e).hs| { StepReads(fold, sys, e, i); }
    }
  }

  /** What event `e` adds to the two sums. */
  ghost function AddsRead(sys: Sys, e: Event): int
    requires Possible(sys, e) && Closed(Topology(sys.hs))
  {
    if e.NewData? && sys.hs[e.source].relay then |e.p| + |e.p| * Relays(sys.hs, WalkOf(sys, e.source)) else 0
  }

  ghost function AddsWritten(sys: Sys, e: Event): int
    requires Possible(sys, e) && Closed(Topology(sys.hs))
  {
    if e.NewData? && sys.hs[e.source].relay then |e.p| * Accepted(sys.hs, WalkOf(sys, e.source)) else 0
  }

  ghost function WalkOf(sys: Sys, i: nat): (calls: seq<nat>)
    requires i < |sys.hs| && NoCycleFrom(Topology(sys.hs), sys.hs[i].outs) && Closed(Topology(sys.hs))
    ensures Within(calls, |sys.hs|)
  {
    TerminatesExactly(Topology(sys.hs), sys.hs[i].outs);
    SummaryOfEmission(sys.hs, i, []);
    Walk(Topology(sys.hs), |sys.hs|, sys.hs[i].outs, 0)
  }

  lemma {:induction false} SumsSame(hs: seq<View>, now: seq<View>)
    requires |hs| <= |now|
    requires forall i :: 0 <= i < |hs| ==> now[i].read == hs[i].read && now[i].written == hs[i].written
    requires forall i :: |hs| <= i < |now| ==> now[i].read == 0 == now[i].written
    ensures SumRead(now) == SumRead(hs) && SumWritten(now) == SumWritten(hs)
    decreases |now|
  {
    if now != [] {
      var n := |now| - 1;
      if |hs| == |now| { SumsSame(hs[..n], now[..n]); } else { SumsSame(hs, now[..n]); }
    }
  }

  lemma {:induction false} StepSums(fold: string -> string, sys: Sys, e: Event)
    requires Sound(sys) && Possible(sys, e)
    ensures SumRead(Step(fold, sys, e).hs) == SumRead(sys.hs) + AddsRead(sys, e)
    ensures SumWritten(Step(fold, sys, e).hs) == SumWritten(sys.hs) + AddsWritten(sys, e)
  {
    if e.NewData? {
      TerminatesExactly(Topology(sys.hs), sys.hs[e.source].outs);
      SummaryOfEmission(sys.hs, e.source, e.p);
    } else {
      SumsSame(sys.hs, Step(fold, sys, e).hs);
    }
  }

  ghost function ReadIn(fold: string -> string, es: seq<Event>): int
    requires Exec(fold, es).Some?
    decreases |es|
  {
    if es == [] then 0
    else
      RunSound(fold, es[..|es| - 1]);
      ReadIn(fold, es[..|es| - 1]) + AddsRead(Exec(fold, es[..|es| - 1]).value, es[|es| - 1])
  }

  ghost function WrittenIn(fold: string -> string, es: seq<Event>): int
    requires Exec(fold, es).Some?
    decreases |es|
  {
    if es == [] then 0
    else
      RunSound(fold, es[..|es| - 1]);
      WrittenIn(fold, es[..|es| - 1]) + AddsWritten(Exec(fold, es[..|es| - 1]).value, es[|es| - 1])
  }

  /** The summary over every run: each emission of a relaying handler adds the packet's length once to
      the bytes read and once more for each call that an echo gave back, and to the bytes written once
      for each call that met a Started handler; nothing else changes either sum. */
  lemma {:induction false} SummaryOfRun(fold: string -> string, es: seq<Event>)
    requires Exec(fold, es).Some?
    ensures SumRead(Exec(fold, es).value.hs) == ReadIn(fold, es)
    ensures SumWritten(Exec(fold, es).value.hs) == WrittenIn(fold, es)
    decreases |es|
  {
    if es != [] {
      SummaryOfRun(fold, es[..|es| - 1]);
      RunSound(fold, es[..|es| - 1]);
      StepSums(fold, Exec(fold, es[..|es| - 1]).value, es[|es| - 1]);
    }
  }

  /** How many copies the k-th event of the run `es` hands to the IO of handler `i`. */
  ghost function FedAt(fold: string -> string, es: seq<Event>, k: nat, i: nat): nat
    requires k < |es|
  {
    match Exec(fold, es[..k])
    case None => 0
    case Some(sys) => if Possible(sys, es[k]) then Fed(sys, es[k], i) else 0
  }

  lemma {:induction false} FedAtPrefix(fold: string -> string, es: seq<Event>, n: nat, k: nat, i: nat)
    requires k < n <= |es|
    ensures FedAt(fold, es[..n], k, i) == FedAt(fold, es, k, i)
  {
    assert es[..n][..k] == es[..k];
  }

  /** In any run a handler's IO is handed all copies of an earlier emission before any copy of a
      later one: packet `a` comes from event `stamps[a]`, the stamps never decrease, and event `k`
      contributes as many packets as it has calls to the handler. */
  lemma {:induction false} SinkOrder(fold: string -> string, es: seq<Event>, i: nat) returns (stamps: seq<nat>)
    requires Exec(fold, es).Some? && i < |Exec(fold, es).value.hs|
    ensures Stamped(es, Exec(fold, es).value.hs[i].sent, stamps)
    ensures forall k :: 0 <= k < |es| ==> Count(stamps, k) == FedAt(fold, es, k, i)
    decreases |es|
  {
    var n := |es| - 1;
    var sys := Exec(fold, es[..n]).value;
    if i < |sys.hs| {
      stamps := SinkOrder(fold, es[..n], i);
    } else {
      stamps := [];
      Unfed(fold, es[..n], i);
    }
    StepSends(fold, sys, es[n], i);
    StampedMore(es, if i < |sys.hs| then sys.hs[i].sent else [], stamps, Fed(sys, es[n], i));
    FedMore(fold, es, i, stamps);
    stamps := stamps + Copies<nat>(n, FedAt(fold, es, n, i));
  }

  lemma {:induction false} FedMore(fold: string -> string, es: seq<Event>, i: nat, stamps: seq<nat>)
    requires es != [] && forall a :: 0 <= a < |stamps| ==> stamps[a] < |es| - 1
    requires forall k :: 0 <= k < |es| - 1 ==> Count(stamps, k) == FedAt(fold, es[..|es| - 1], k, i)
    ensures forall k :: 0 <= k < |es| ==>
              Count(stamps + Copies<nat>(|es| - 1, FedAt(fold, es, |es| - 1, i)), k) == FedAt(fold, es, k, i)
  {
    var n := |es| - 1;
    var fed := FedAt(fold, es, n, i);
    forall k | 0 <= k < |es|
      ensures Count(stamps + Copies<nat>(n, fed), k) == FedAt(fold, es, k, i)
    {
      CountConcat(stamps, Copies<nat>(n, fed), k);
      CountRepeated(n, fed, k);
      if k < n { FedAtPrefix(fold, es, n, k, i); }
      else { NotCounted(stamps, n); }
    }
  }

  /** Every packet of `sent` was emitted by the event its stamp names, and the stamps never decrease. */
  ghost predicate Stamped(es: seq<Event>, sent: seq<Packet>, stamps: seq<nat>)
  {
    && |stamps| == |sent|
    && (forall a :: 0 <= a < |sent| ==> stamps[a] < |es| && es[stamps[a]].NewData? && sent[a] == es[stamps[a]].p)
    && (forall a, b :: 0 <= a < b < |stamps| ==> stamps[a] <= stamps[b])
  }

  lemma StampedMore(es: seq<Event>, sent: seq<Packet>, stamps: seq<nat>, fed: nat)
    requires es != [] && Stamped(es[..|es| - 1], sent, stamps)
    requires fed > 0 ==> es[|es| - 1].NewData?
    ensures Stamped(es, sent + (if es[|es| - 1].NewData? then Copies(es[|es| - 1].p, fed) else []),
                    stamps + Copies<nat>(|es| - 1, fed))
  {
  }

  lemma NotCounted(stamps: seq<nat>, n: nat)
    requires forall a :: 0 <= a < |stamps| ==> stamps[a] < n
    ensures Count(stamps, n) == 0
  {
  }

  lemma {:induction false} CountRepeated(v: nat, n: nat, k: nat)
    ensures Count(Copies<nat>(v, n), k) == if k == v then n else 0
    decreases n
  {
    if n > 0 {
      CountRepeated(v, n - 1, k);
      CountConcat(Copies<nat>(v, n - 1), [v], k);
      assert Copies<nat>(v, n) == Copies<nat>(v, n - 1) + [v];
    }
  }

  lemma {:induction false} Unfed(fold: string -> string, es: seq<Event>, i: nat)
    requires Exec(fold, es).Some? && i >= |Exec(fold, es).value.hs|
    ensures forall k :: 0 <= k < |es| ==> FedAt(fold, es, k, i) == 0
    decreases |es|
  {
    if es != [] {
      var n := |es| - 1;
      StepGrows(fold, Exec(fold, es[..n]).value, es[n]);
      Unfed(fold, es[..n], i);
      forall k | 0 <= k < |es|
        ensures FedAt(fold, es, k, i) == 0
      {
        if k < n { FedAtPrefix(fold, es, n, k, i); }
      }
    }
  }
}
