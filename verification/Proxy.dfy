/**
  Handler and Engine as the objects they are.  A connection from one handler to another is a
  reference to that handler, and a delivery is the nested call it makes.
*/
module Proxy {
  import opened Delivery
  import opened EngineState
  import opened HandlerState
  import opened Routing
  import opened Wrappers

  class Handler {
    const name: string
    const echo: bool
    ghost const index: nat  // its position in the engine's list

    var state: State
    var errorMessage: string
    var bytesRead: int
    var bytesWritten: int
    var relay: bool
    var controls: nat
    var targets: seq<Handler>

    ghost var stateChanges: nat
    ghost var errorChanges: nat
    ghost var sent: seq<Packet>

    constructor (name: string, echo: bool, ghost index: nat)
      ensures this.index == index && targets == []
      ensures GetView() == Created(name, echo)
    {
      this.name, this.echo, this.index := name, echo, index;
      state, errorMessage, stateChanges, errorChanges := Stopped, "", 0, 0;
      bytesRead, bytesWritten, sent := 0, 0, [];
      relay, controls, targets := true, 0, [];
    }

    ghost function GetStatus(): Status
      reads this`state, this`errorMessage, this`stateChanges, this`errorChanges
    {
      Status(state, errorMessage, stateChanges, errorChanges)
    }

    ghost function Outs(): (r: seq<nat>)
      reads this`targets
    {
      Indices(targets)
    }

    ghost function GetView(): View
      reads this
    {
      View(name, echo, GetStatus(), bytesRead, bytesWritten, sent, relay, controls, Outs())
    }

    method SetState(s: State)
      modifies this`state, this`stateChanges
      ensures GetStatus() == HandlerState.SetState(old(GetStatus()), s)
    {
      if state != s {
        state := s;
        stateChanges := stateChanges + 1;
      }
    }

    method SetErrorMessage(message: string)
      modifies this`errorMessage, this`errorChanges
      ensures GetStatus() == SetError(old(GetStatus()), message)
    {
      if errorMessage != message {
        errorMessage := message;
        errorChanges := errorChanges + 1;
      }
    }

    method OnStarted()
      modifies this`state, this`stateChanges, this`errorMessage, this`errorChanges
      ensures GetStatus() == Receive(old(GetStatus()), IoStarted)
      ensures state == Started && errorMessage == ""
    {
      SetErrorMessage("");
      SetState(Started);
    }

    method OnStartupErrorOccured(message: string)
      modifies this`state, this`stateChanges, this`errorMessage, this`errorChanges
      ensures GetStatus() == Receive(old(GetStatus()), IoStartupError(message))
      ensures state == Failed && errorMessage == message
    {
      SetErrorMessage(message);
      SetState(Failed);
    }

    method OnErrorOccured(message: string)
      modifies this`state, this`stateChanges, this`errorMessage, this`errorChanges
      ensures GetStatus() == Receive(old(GetStatus()), IoError(message))
      ensures state == Failed && errorMessage == message
    {
      SetErrorMessage(message);
      SetState(Failed);
    }

    /** The IO emits a control signal: the slot runs once for each connection. */
    method RaiseSignal(c: Control)
      modifies this`state, this`stateChanges, this`errorMessage, this`errorChanges
      ensures GetStatus() == Raise(old(GetStatus()), [c], controls)
      ensures if controls == 0 then GetStatus() == old(GetStatus()) else SaidLast(GetStatus(), Some(c))
    {
      ghost var before := GetStatus();
      for n := 0 to controls
        invariant GetStatus() == ReceiveTimes(before, c, n)
      {
        match c
        case IoStarted => OnStarted();
        case IoStartupError(m) => OnStartupErrorOccured(m);
        case IoError(m) => OnErrorOccured(m);
      }
      assert Raise(before, [c], controls) == ReceiveTimes(Raise(before, [], controls), c, controls);
      if controls > 0 { RaiseSaysLast(before, [c], controls); }
    }

    /** `script` are the signals the IO emits before its own start returns. */
    method Start(script: seq<Control>)
      modifies this`state, this`stateChanges, this`errorMessage, this`errorChanges, this`controls
      ensures GetView() == HandlerState.Start(old(GetView()), script)
      ensures script != [] ==> SaidLast(GetStatus(), Some(script[|script| - 1]))
    {
      controls := controls + 1;
      ghost var before := GetStatus();
      for n := 0 to |script|
        invariant controls == old(controls) + 1
        invariant GetStatus() == Raise(before, script[..n], controls)
      {
        ghost var prior := GetStatus();
        RaiseSignal(script[n]);
        assert Raise(prior, [script[n]], controls) == ReceiveTimes(Raise(prior, [], controls), script[n], controls);
        assert script[..n + 1][..n] == script[..n];
      }
      assert script[..|script|] == script;
      if script != [] { RaiseSaysLast(before, script, controls); }
    }

    method Stop()
      modifies this`relay, this`controls
      ensures GetView() == HandlerState.Stop(old(GetView()))
    {
      relay, controls := false, 0;
    }

    /** `QObject::connect(src, &Handler::newData, dst, &Handler::writeData)`. */
    method ConnectTo(dst: Handler, ghost w: seq<Handler>)
      requires World(w) && this in w && dst in w
      modifies this`targets
      ensures World(w)
      ensures var h := old(GetView()); Views(w) == old(Views(w))[index := h.(outs := h.outs + [dst.index])]
    {
      targets := targets + [dst];
      assert Outs() == old(Outs()) + [dst.index];
      assert forall i :: 0 <= i < |w| && i != index ==> w[i] != this && Views(w)[i] == old(Views(w))[i];
    }

    method BookWritten(p: Packet, ghost w: seq<Handler>)
      requires World(w) && this in w
      modifies this`bytesWritten, this`sent
      ensures Views(w) == Booked(old(Views(w)), index, p)
    {
      bytesWritten := bytesWritten + |p|;
      sent := sent + [p];
      assert forall i :: 0 <= i < |w| && i != index ==> w[i] != this && Views(w)[i] == old(Views(w))[i];
    }

    method BookRead(p: Packet, ghost w: seq<Handler>)
      requires World(w) && this in w
      modifies this`bytesRead
      ensures Views(w) == old(Views(w))[index := Relayed(old(GetView()), p)]
    {
      bytesRead := bytesRead + |p|;
      assert forall i :: 0 <= i < |w| && i != index ==> w[i] != this && Views(w)[i] == old(Views(w))[i];
    }

    /** `Handler::writeData`.  `w` are the engine's handlers; `stack` are the deliveries under way, from
        the source of the packet on.  The call goes through exactly the moments of the machine from its
        entry to its return, the entries among them being the writeData calls it makes, in order. */
    method WriteData(p: Packet, ghost w: seq<Handler>, ghost net: Network, ghost depth: nat, ghost stack: seq<Frame>)
      returns (ghost moments: seq<Moment>)
      requires World(w) && this in w && net == Topology(Views(w))
      requires Returns(net, depth, [index]) && stack != []
      modifies w`bytesRead, w`bytesWritten, w`sent
      ensures EntriesOf(moments) == Visit(net, depth, index)
      ensures WriteTrace(net, p, index, old(Views(w)), Views(w), stack, moments)
      ensures Views(w) == After(old(Views(w)), Visit(net, depth, index), p)
      decreases depth, 2
    {
      if state == Started {
        moments := HandOver(p, w, net, depth, stack);
      } else {
        moments := NotStartedCall(Views(w), net, depth, index, p, stack);
      }
    }

    /** The rest of `Handler::writeData`, once the state has been checked. */
    method HandOver(p: Packet, ghost w: seq<Handler>, ghost net: Network, ghost depth: nat, ghost stack: seq<Frame>)
      returns (ghost moments: seq<Moment>)
      requires World(w) && this in w && net == Topology(Views(w)) && state == Started
      requires Returns(net, depth, [index]) && stack != []
      modifies w`bytesRead, w`bytesWritten, w`sent
      ensures EntriesOf(moments) == Visit(net, depth, index)
      ensures WriteTrace(net, p, index, old(Views(w)), Views(w), stack, moments)
      ensures Views(w) == After(old(Views(w)), Visit(net, depth, index), p)
      decreases depth, 1
    {
      ghost var hs, mid := Views(w), BeforeBooking(Views(w), net, depth, index, p);
      StartedCall(hs, net, depth, index, p);
      moments := IoWriteData(p, w, net, depth, stack);
      BookWritten(p, w);
      BookedCall(net, p, index, hs, mid, stack, moments);
      moments := moments + [Moment(WriteReturned, index, Booked(mid, index, p), stack)];
    }

    /** `IOBase::writeData`: an EchoIO emits the packet as its own newData before it returns. */
    method IoWriteData(p: Packet, ghost w: seq<Handler>, ghost net: Network, ghost depth: nat, ghost stack: seq<Frame>)
      returns (ghost moments: seq<Moment>)
      requires World(w) && this in w && net == Topology(Views(w)) && state == Started
      requires Returns(net, depth, [index]) && stack != []
      modifies w`bytesRead, w`bytesWritten, w`sent
      ensures EntriesOf(moments) == Visit(net, depth, index)
      ensures IoTrace(net, p, index, old(Views(w)), Views(w), stack, moments)
      ensures Views(w) == BeforeBooking(old(Views(w)), net, depth, index, p)
      decreases depth, 0
    {
      ghost var hs := Views(w);
      if echo && relay {
        assert index in [index];
        moments := OnNewData(p, w, net, depth - 1, stack);
        moments := EchoReturns(hs, Views(w), net, index, p, stack, moments);
      } else {
        moments := IoOnlyReturns(hs, net, depth, index, p, stack);
      }
    }

    /** The slot connected to the IO's newData. */
    method OnNewData(p: Packet, ghost w: seq<Handler>, ghost net: Network, ghost depth: nat, ghost stack: seq<Frame>)
      returns (ghost moments: seq<Moment>)
      requires World(w) && this in w && net == Topology(Views(w))
      requires Returns(net, depth, Outs())
      modifies w`bytesRead, w`bytesWritten, w`sent
      ensures EntriesOf(moments) == Walk(net, depth, Outs(), 0)
      ensures ReadTrace(net, p, index, old(Views(w)), Views(w), stack, moments)
      ensures Views(w) == After(old(Views(w))[index := Relayed(old(GetView()), p)], Walk(net, depth, Outs(), 0), p)
      decreases depth, 6
    {
      ghost var hs := Views(w);
      BookRead(p, w);
      moments := EmitNewData(p, w, net, depth, stack);
      moments := ReadFirst(hs, Views(w), net, index, p, stack, moments);
    }

    /** The handler emits newData: the writeData of every handler connected to it is called, in
        connection order. */
    method EmitNewData(p: Packet, ghost w: seq<Handler>, ghost net: Network, ghost depth: nat, ghost stack: seq<Frame>)
      returns (ghost moments: seq<Moment>)
      requires World(w) && this in w && net == Topology(Views(w))
      requires Returns(net, depth, Outs())
      modifies w`bytesRead, w`bytesWritten, w`sent
      ensures EntriesOf(moments) == Walk(net, depth, Outs(), 0)
      ensures EmitTrace(net, p, index, old(Views(w)), Views(w), stack, moments)
      ensures Views(w) == After(old(Views(w)), Walk(net, depth, Outs(), 0), p)
      decreases depth, 5
    {
      ghost var hs := Views(w);
      moments := CallTargets(p, w, net, depth, stack);
      EmittedAll(hs, Views(w), net, depth, index, p, stack, moments);
      moments := moments + [Moment(ReadReturned, index, Views(w), Calling(stack, index, |targets|))];
    }

    method CallTargets(p: Packet, ghost w: seq<Handler>, ghost net: Network, ghost depth: nat, ghost stack: seq<Frame>)
      returns (ghost moments: seq<Moment>)
      requires World(w) && this in w && net == Topology(Views(w))
      requires Returns(net, depth, Outs())
      modifies w`bytesRead, w`bytesWritten, w`sent
      ensures Emitted(old(Views(w)), Views(w), net, depth, index, |targets|, p, stack, moments)
      decreases depth, 4
    {
      ghost var hs, outs := Views(w), Outs();
      moments := [Moment(ReadBooked, index, hs, Calling(stack, index, 0))];
      EmittedNone(hs, net, depth, index, p, stack);
      for k := 0 to |targets|
        invariant Emitted(hs, Views(w), net, depth, index, k, p, stack, moments)
      {
        ghost var now := Views(w);
        ReturnsEach(net, depth, outs, k);
        ghost var visit := CallTarget(k, p, w, net, depth, stack);
        EmittedOne(hs, now, net, depth, index, k, p, stack, moments, visit);
        moments := moments + visit;
      }
    }

    /** The slot of one connection is called. */
    method CallTarget(
      k: nat, p: Packet, ghost w: seq<Handler>, ghost net: Network, ghost depth: nat, ghost stack: seq<Frame>)
      returns (ghost moments: seq<Moment>)
      requires World(w) && this in w && net == Topology(Views(w)) && k < |targets|
      requires Returns(net, depth, [Outs()[k]])
      modifies w`bytesRead, w`bytesWritten, w`sent
      ensures Outs()[k] < |w| && EntriesOf(moments) == Visit(net, depth, Outs()[k])
      ensures WriteTrace(net, p, Outs()[k], old(Views(w)), Views(w), Calling(stack, index, k + 1), moments)
      ensures Views(w) == After(old(Views(w)), Visit(net, depth, Outs()[k]), p)
      decreases depth, 3
    {
      moments := targets[k].WriteData(p, w, net, depth, Calling(stack, index, k + 1));
    }
  }

  ghost function Indices(ts: seq<Handler>): (r: seq<nat>)
    ensures |r| == |ts| && forall k :: 0 <= k < |ts| ==> r[k] == ts[k].index
  {
    seq(|ts|, k requires 0 <= k < |ts| => ts[k].index)
  }

  ghost predicate World(w: seq<Handler>)
    reads w`targets
  {
    forall i :: 0 <= i < |w| ==> w[i].index == i && forall t :: t in w[i].targets ==> t in w
  }

  ghost function Views(w: seq<Handler>): (r: seq<View>)
    reads w
    ensures |r| == |w| && forall i :: 0 <= i < |w| ==> r[i] == w[i].GetView()
  {
    seq(|w|, i requires 0 <= i < |w| reads w => w[i].GetView())
  }

  lemma HandlerAppended(w: seq<Handler>, h: Handler)
    requires World(w) && h.index == |w| && h.targets == []
    ensures World(w + [h]) && Views(w + [h]) == Views(w) + [h.GetView()]
  {
  }

  /** The engine: its handlers in the order they were added. `fold` is the case folding with which
      names are compared. */
  class Engine {
    const fold: string -> string

    var handlers: seq<Handler>
    var started: bool
    ghost var events: seq<Event>  // what has happened to it

    ghost function GetSys(): Sys
      reads this, handlers
    {
      Sys(Views(handlers), started)
    }

    /** The engine is where the run of its events leads to, so that every theorem about runs holds of
        it. */
    ghost predicate Valid()
      reads this, handlers
    {
      World(handlers) && Exec(fold, events) == Some(GetSys())
    }

    constructor (fold: string -> string)
      ensures this.fold == fold && handlers == [] && Valid() && GetSys() == Sys([], false)
    {
      this.fold, handlers, started, events := fold, [], false, [];
    }

    /** `script` are the signals the IO emits while it starts, which it does here if the engine is
        already running. */
    method AddIO(name: string, echo: bool, script: seq<Control>)
      requires Valid()
      modifies this`handlers, this`events
      ensures Valid() && events == old(events) + [Event.AddIO(name, echo, script)]
      ensures |handlers| == |old(handlers)| + 1 && fresh(handlers[|old(handlers)|])
      ensures forall i :: 0 <= i < |old(handlers)| ==> handlers[i] == old(handlers)[i]
      ensures GetSys() == AddedIO(old(GetSys()), name, echo, script)
    {
      Happened(Event.AddIO(name, echo, script));
      Append(name, echo, script);
    }

    method Append(name: string, echo: bool, script: seq<Control>)
      requires World(handlers)
      modifies this`handlers
      ensures World(handlers) && GetSys() == AddedIO(old(GetSys()), name, echo, script)
      ensures |handlers| == |old(handlers)| + 1 && fresh(handlers[|old(handlers)|])
      ensures forall i :: 0 <= i < |old(handlers)| ==> handlers[i] == old(handlers)[i]
    {
      ghost var hs := Views(handlers);
      var handler := NewHandler(name, echo, script, |handlers|);
      assert Views(handlers) == hs;
      HandlerAppended(handlers, handler);
      handlers := handlers + [handler];
    }

    method NewHandler(name: string, echo: bool, script: seq<Control>, ghost index: nat) returns (handler: Handler)
      ensures fresh(handler) && handler.index == index && handler.targets == []
      ensures handler.GetView() ==
              if started then HandlerState.Start(Created(name, echo), ScriptOf(echo, script)) else Created(name, echo)
    {
      handler := new Handler(name, echo, index);
      if started {
        handler.Start(ScriptOf(echo, script));
      }
    }

    /** The first handler with this name, if there is one. */
    method GetIOHandler(id: string) returns (r: Option<Handler>)
      requires World(handlers)
      ensures match r
              case None => Find(fold, Views(handlers), id) == None
              case Some(h) => h in handlers && Find(fold, Views(handlers), id) == Some(h.index)
    {
      for n := 0 to |handlers|
        invariant Find(fold, Views(handlers), id) == FindFrom(fold, Views(handlers), id, n)
      {
        if fold(handlers[n].name) == fold(id) {
          return Some(handlers[n]);
        }
      }
      return None;
    }

    /** Connects the newData of one handler to the writeData of another.  An unknown name is reported,
        the source first, and changes nothing. */
    method AddConnection(srcIO: string, dstIO: string) returns (r: Result<(), string>)
      requires Valid()
      modifies handlers`targets, this`events
      ensures Valid() && events == old(events) + [Event.AddConnection(srcIO, dstIO)]
      ensures GetSys() == Connected(fold, old(GetSys()), srcIO, dstIO)
      ensures match r
              case Success(_) =>
                && Find(fold, old(Views(handlers)), srcIO).Some?
                && Find(fold, old(Views(handlers)), dstIO).Some?
              case Failure(id) =>
                && Find(fold, old(Views(handlers)), id) == None
                && id == if Find(fold, old(Views(handlers)), srcIO) == None then srcIO else dstIO
    {
      Happened(Event.AddConnection(srcIO, dstIO));
      r := Connect(srcIO, dstIO);
    }

    method Connect(srcIO: string, dstIO: string) returns (r: Result<(), string>)
      requires World(handlers)
      modifies handlers`targets
      ensures World(handlers) && GetSys() == Connected(fold, old(GetSys()), srcIO, dstIO)
      ensures match r
              case Success(_) =>
                && Find(fold, old(Views(handlers)), srcIO).Some?
                && Find(fold, old(Views(handlers)), dstIO).Some?
              case Failure(id) =>
                && Find(fold, old(Views(handlers)), id) == None
                && id == if Find(fold, old(Views(handlers)), srcIO) == None then srcIO else dstIO
    {
      var src := GetIOHandler(srcIO);
      if src == None {
        return Failure(srcIO);
      }
      var dst := GetIOHandler(dstIO);
      if dst == None {
        return Failure(dstIO);
      }
      src.value.ConnectTo(dst.value, handlers);
      return Success(());
    }

    /** Starts every handler, unless that has been done; `scripts[n]` are the signals IO `n` emits while
        it starts. */
    method Start(scripts: seq<seq<Control>>)
      requires Valid()
      modifies this`started, this`events, handlers
      ensures Valid() && handlers == old(handlers) && events == old(events) + [StartAll(scripts)]
      ensures GetSys() == StartedAll(old(GetSys()), scripts)
    {
      Happened(StartAll(scripts));
      StartHandlers(scripts);
    }

    method StartHandlers(scripts: seq<seq<Control>>)
      requires World(handlers)
      modifies this`started, handlers
      ensures World(handlers) && GetSys() == StartedAll(old(GetSys()), scripts)
    {
      if started {
        return;
      }
      StartEach(scripts);
      started := true;
    }

    method StartEach(scripts: seq<seq<Control>>)
      requires World(handlers)
      modifies handlers
      ensures World(handlers) && Views(handlers) == StartedHandlers(old(Views(handlers)), scripts)
    {
      ghost var hs := Views(handlers);
      for n := 0 to |handlers|
        invariant World(handlers) && StartedUpTo(hs, Views(handlers), scripts, n)
      {
        StartedNext(hs, Views(handlers), scripts, n);
        StartOne(n, ScriptAt(scripts, n));
      }
    }

    method StartOne(n: nat, script: seq<Control>)
      requires World(handlers) && n < |handlers|
      modifies handlers[n]
      ensures World(handlers)
      ensures var h := old(Views(handlers))[n];
              Views(handlers) == old(Views(handlers))[n := HandlerState.Start(h, ScriptOf(h.echo, script))]
    {
      var h := handlers[n];
      h.Start(ScriptOf(h.echo, script));
      assert forall i :: 0 <= i < |handlers| && i != n ==>
               handlers[i] != h && Views(handlers)[i] == old(Views(handlers))[i];
    }

    /** Stops every handler, whether the engine was started or not. */
    method Stop()
      requires Valid()
      modifies this`started, this`events, handlers
      ensures Valid() && handlers == old(handlers) && events == old(events) + [StopAll]
      ensures GetSys() == StoppedAll(old(GetSys()))
    {
      Happened(StopAll);
      StopHandlers();
    }

    method StopHandlers()
      requires World(handlers)
      modifies this`started, handlers
      ensures World(handlers) && GetSys() == StoppedAll(old(GetSys()))
    {
      StopEach();
      started := false;
    }

    method StopEach()
      requires World(handlers)
      modifies handlers
      ensures World(handlers) && Views(handlers) == StoppedHandlers(old(Views(handlers)))
    {
      ghost var hs := Views(handlers);
      for n := 0 to |handlers|
        invariant World(handlers)
        invariant forall i :: 0 <= i < n ==> Views(handlers)[i] == HandlerState.Stop(hs[i])
        invariant forall i :: n <= i < |handlers| ==> Views(handlers)[i] == hs[i]
      {
        StopOne(n);
      }
    }

    method StopOne(n: nat)
      requires World(handlers) && n < |handlers|
      modifies handlers[n]
      ensures World(handlers)
      ensures Views(handlers) == old(Views(handlers))[n := HandlerState.Stop(old(Views(handlers))[n])]
    {
      var h := handlers[n];
      h.Stop();
      assert forall i :: 0 <= i < |handlers| && i != n ==>
               handlers[i] != h && Views(handlers)[i] == old(Views(handlers))[i];
    }

    /** The IO of handler `n` emits newData; every call this leads to has returned when this does.  If
        handler `n` relays, `moments` is the run of the machine from here to its end: the calls are those
        of the depth-first walk, and at every moment the debts of the echo handlers are those of the
        deliveries under way. */
    method IoNewData(n: nat, p: Packet) returns (ghost moments: seq<Moment>)
      requires Valid() && Possible(GetSys(), NewData(n, p))
      modifies handlers, this`events
      ensures Valid() && events == old(events) + [NewData(n, p)]
      ensures GetSys() == Step(fold, old(GetSys()), NewData(n, p))
      ensures Returns(Topology(old(Views(handlers))), |handlers|, old(Views(handlers))[n].outs)
      ensures EntriesOf(moments) == if old(handlers[n].relay) then
                Walk(Topology(old(Views(handlers))), |handlers|, old(Views(handlers))[n].outs, 0) else []
      ensures old(handlers[n].relay) ==>
                && ReadTrace(Topology(old(Views(handlers))), p, n, old(Views(handlers)), Views(handlers), [], moments)
                && Complete(Topology(old(Views(handlers))), p, moments)
      ensures !old(handlers[n].relay) ==> moments == [] && Views(handlers) == old(Views(handlers))
      ensures forall i :: 0 <= i < |moments| ==> DebtsHold(p, moments[i])
    {
      ghost var sys := GetSys();
      RunSound(fold, events);
      Happened(NewData(n, p));
      TerminatesExactly(Topology(sys.hs), sys.hs[n].outs);
      moments := Deliver(n, p);
      if sys.hs[n].relay {
        EngineRun(sys, n, p, Views(handlers), moments);
      }
    }

    method Deliver(n: nat, p: Packet) returns (ghost moments: seq<Moment>)
      requires World(handlers) && n < |handlers|
      requires Returns(Topology(Views(handlers)), |handlers|, Views(handlers)[n].outs)
      modifies handlers
      ensures World(handlers) && GetSys() == Delivered(old(GetSys()), n, p)
      ensures old(handlers[n].relay) ==>
                ReadTrace(Topology(old(Views(handlers))), p, n, old(Views(handlers)), Views(handlers), [], moments)
      ensures !old(handlers[n].relay) ==> moments == []
      ensures EntriesOf(moments) == if old(handlers[n].relay) then
                Walk(Topology(old(Views(handlers))), |handlers|, old(Views(handlers))[n].outs, 0) else []
    {
      moments := [];
      if handlers[n].relay {
        moments := handlers[n].OnNewData(p, handlers, Topology(Views(handlers)), |handlers|, []);
      }
    }

    /** The IO of handler `n` emits a control signal. */
    method IoSignal(n: nat, c: Control)
      requires Valid() && n < |handlers|
      modifies handlers, this`events
      ensures Valid() && events == old(events) + [Signal(n, c)]
      ensures GetSys() == Signalled(old(GetSys()), n, c)
      ensures GetSys().started ==> SaidLast(Views(handlers)[n].status, Some(c))
      ensures !GetSys().started ==> Views(handlers) == old(Views(handlers))
    {
      ghost var hs := Views(handlers);
      RunSound(fold, events);
      Happened(Signal(n, c));
      SignalOne(n, c);
      if started { RaiseSaysLast(hs[n].status, [c], 1); } else { UnconnectedRaise(hs[n].status, [c]); }
    }

    method SignalOne(n: nat, c: Control)
      requires World(handlers) && n < |handlers|
      modifies handlers[n]
      ensures World(handlers)
      ensures var h := old(Views(handlers))[n];
              Views(handlers) == old(Views(handlers))[n := h.(status := Raise(h.status, [c], h.controls))]
    {
      var h := handlers[n];
      h.RaiseSignal(c);
      assert forall i :: 0 <= i < |handlers| && i != n ==>
               handlers[i] != h && Views(handlers)[i] == old(Views(handlers))[i];
    }

    /** Records an event about to be carried out. */
    ghost method Happened(e: Event)
      requires Valid() && Possible(GetSys(), e)
      modifies this`events
      ensures World(handlers) && GetSys() == old(GetSys()) && events == old(events) + [e]
      ensures Exec(fold, events) == Some(Step(fold, GetSys(), e))
    {
      events := events + [e];
      assert events[..|events| - 1] == old(events);
    }

    method StatisticSummary() returns (bytesRead: int, bytesWritten: int)
      ensures bytesRead == SumRead(Views(handlers)) && bytesWritten == SumWritten(Views(handlers))
    {
      bytesRead, bytesWritten := 0, 0;
      for n := 0 to |handlers|
        invariant bytesRead == SumRead(Views(handlers)[..n]) && bytesWritten == SumWritten(Views(handlers)[..n])
      {
        bytesRead, bytesWritten := bytesRead + handlers[n].bytesRead, bytesWritten + handlers[n].bytesWritten;
        assert Views(handlers)[..n + 1][..n] == Views(handlers)[..n];
      }
      assert Views(handlers)[..|handlers|] == Views(handlers);
    }
  }
}
