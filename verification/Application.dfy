/**
  The console application: from the arguments to a started engine whose network is the one the
  command line describes.
*/
module Application {
  import opened CmdLine
  import opened EngineState
  import opened HandlerState
  import opened Parameters
  import opened Proxy
  import opened Wrappers

  /** What a call of a factory's `create` comes to: an IO, given by the signals it will emit while it
      starts, or an error, or it does not return. */
  datatype Creation = Made(script: seq<Control>) | Refused(error: string) | Endless

  /** A registered factory, and whether what it makes are EchoIOs. */
  datatype Factory = Factory(echo: bool, create: Params -> Creation)

  type Factories = map<string, Factory>

  /** The IO can be made: its type is registered and its parameters are accepted. */
  predicate Creatable(io: IoConfig, factories: Factories)
  {
    io.kind in factories && factories[io.kind].create(io.parameters).Made?
  }

  predicate AllCreatable(ios: seq<IoConfig>, factories: Factories)
  {
    forall i :: 0 <= i < |ios| ==> Creatable(ios[i], factories)
  }

  predicate CreateReturns(io: IoConfig, factories: Factories)
  {
    io.kind in factories ==> !factories[io.kind].create(io.parameters).Endless?
  }

  /** Starting the application comes to an end: every `create` that it gets to returns.  It gets to the
      n-th once all before it have made their IOs. */
  predicate StartReturns(ios: seq<IoConfig>, factories: Factories)
  {
    forall n :: 0 <= n < |ios| && AllCreatable(ios[..n], factories) ==> CreateReturns(ios[n], factories)
  }

  function IsEcho(io: IoConfig, factories: Factories): bool
  {
    io.kind in factories && factories[io.kind].echo
  }

  function ScriptOfIo(io: IoConfig, factories: Factories): seq<Control>
  {
    if Creatable(io, factories) then factories[io.kind].create(io.parameters).script else []
  }

  function ScriptsOf(ios: seq<IoConfig>, factories: Factories): seq<seq<Control>>
  {
    seq(|ios|, i requires 0 <= i < |ios| => ScriptOfIo(ios[i], factories))
  }

  /** The handlers of the IOs, not yet connected or started. */
  function Handlers(ios: seq<IoConfig>, factories: Factories): seq<View>
  {
    seq(|ios|, i requires 0 <= i < |ios| => Created(ios[i].id, IsEcho(ios[i], factories)))
  }

  /** Both names of every connection are known. */
  predicate Resolvable(fold: string -> string, hs: seq<View>, cs: seq<(string, string)>)
  {
    forall k :: 0 <= k < |cs| ==> Find(fold, hs, cs[k].0).Some? && Find(fold, hs, cs[k].1).Some?
  }

  /** The first IO that cannot be made is refused with `error`. */
  ghost predicate RefusedWith(ios: seq<IoConfig>, factories: Factories, error: string)
  {
    exists n :: 0 <= n < |ios| && AllCreatable(ios[..n], factories) && !Creatable(ios[n], factories)
                && (ios[n].kind in factories ==> factories[ios[n].kind].create(ios[n].parameters) == Refused(error))
  }

  /** `id` is the first name of a connection that is not known, its source before its target. */
  ghost predicate FirstUnknown(fold: string -> string, hs: seq<View>, cs: seq<(string, string)>, id: string)
  {
    exists n :: 0 <= n < |cs| && Resolvable(fold, hs, cs[..n]) && Find(fold, hs, id) == None
                && id == if Find(fold, hs, cs[n].0) == None then cs[n].0 else cs[n].1
  }

  function ConnectedAll(fold: string -> string, hs: seq<View>, cs: seq<(string, string)>): seq<View>
    decreases |cs|
  {
    if cs == [] then hs
    else Connected(fold, Sys(ConnectedAll(fold, hs, cs[..|cs| - 1]), false), cs[|cs| - 1].0, cs[|cs| - 1].1).hs
  }

  /** The targets that the connections `cs` give to handler `i`, in their order. */
  function TargetsOf(fold: string -> string, hs: seq<View>, cs: seq<(string, string)>, i: nat): seq<nat>
    requires Resolvable(fold, hs, cs)
    decreases |cs|
  {
    if cs == [] then []
    else
      var k := |cs| - 1;
      TargetsOf(fold, hs, cs[..k], i)
        + if Find(fold, hs, cs[k].0) == Some(i) then [Find(fold, hs, cs[k].1).value] else []
  }

  ghost predicate SameNames(a: seq<View>, b: seq<View>)
  {
    |a| == |b| && forall i :: 0 <= i < |a| ==> a[i].name == b[i].name
  }

  lemma FindByName(fold: string -> string, a: seq<View>, b: seq<View>, id: string, k: nat)
    requires SameNames(a, b) && k <= |a|
    ensures FindFrom(fold, a, id, k) == FindFrom(fold, b, id, k)
    decreases |a| - k
  {
  }

  /** Connecting changes nothing but the targets. */
  lemma {:induction false} ConnectedAllIs(fold: string -> string, hs: seq<View>, cs: seq<(string, string)>)
    requires Resolvable(fold, hs, cs)
    ensures var r := ConnectedAll(fold, hs, cs);
            && SameNames(hs, r)
            && forall i :: 0 <= i < |hs| ==> r[i] == hs[i].(outs := hs[i].outs + TargetsOf(fold, hs, cs, i))
    decreases |cs|
  {
    if cs == [] {
      assert forall i :: 0 <= i < |hs| ==> hs[i].outs + [] == hs[i].outs;
    } else {
      var k := |cs| - 1;
      var before := ConnectedAll(fold, hs, cs[..k]);
      ConnectedAllIs(fold, hs, cs[..k]);
      FindByName(fold, hs, before, cs[k].0, 0);
      FindByName(fold, hs, before, cs[k].1, 0);
      var s, d := Find(fold, hs, cs[k].0).value, Find(fold, hs, cs[k].1).value;
      var r := ConnectedAll(fold, hs, cs);
      assert r == before[s := before[s].(outs := before[s].outs + [d])];
      forall i | 0 <= i < |hs|
        ensures r[i] == hs[i].(outs := hs[i].outs + TargetsOf(fold, hs, cs, i))
      {
        var prior := TargetsOf(fold, hs, cs[..k], i);
        assert before[i] == hs[i].(outs := hs[i].outs + prior);
        assert hs[i].outs + prior + [d] == hs[i].outs + (prior + [d]) && prior + [] == prior;
      }
    }
  }

  /** The started engine for a parsed command line. */
  function Booted(fold: string -> string, config: Parsed, factories: Factories): Sys
  {
    StartedAll(Sys(ConnectedAll(fold, Handlers(config.ios, factories), config.connections), false),
               ScriptsOf(config.ios, factories))
  }

  predicate Acceptable(fold: string -> string, config: Parsed, factories: Factories)
  {
    && AllCreatable(config.ios, factories)
    && Resolvable(fold, Handlers(config.ios, factories), config.connections)
  }

  /** A started application's handlers are those of the -io options, in order, each connected to the
      targets that the -connect options naming it give it, in their order, and then started. */
  lemma {:induction false} BootedHandler(fold: string -> string, config: Parsed, factories: Factories, i: nat)
    requires Acceptable(fold, config, factories) && i < |config.ios|
    ensures |Booted(fold, config, factories).hs| == |config.ios|
    ensures var io := config.ios[i];
            Booted(fold, config, factories).hs[i] == HandlerState.Start(
              Created(io.id, IsEcho(io, factories)).(
                outs := TargetsOf(fold, Handlers(config.ios, factories), config.connections, i)),
              ScriptOf(IsEcho(io, factories), ScriptOfIo(io, factories)))
  {
    var bare := Handlers(config.ios, factories);
    ConnectedAllIs(fold, bare, config.connections);
    var targets := TargetsOf(fold, bare, config.connections, i);
    assert bare[i].outs + targets == targets;
  }

  /** So each relays, has one set of control connections and empty ledgers. */
  lemma {:induction false} BootedNetwork(fold: string -> string, config: Parsed, factories: Factories)
    requires Acceptable(fold, config, factories)
    ensures |Booted(fold, config, factories).hs| == |config.ios|
    ensures forall i :: 0 <= i < |config.ios| ==>
              var h, io := Booted(fold, config, factories).hs[i], config.ios[i];
              && h.name == io.id && h.echo == IsEcho(io, factories)
              && h.relay && h.controls == 1 && h.read == h.written == 0 && h.sent == []
              && h.outs == TargetsOf(fold, Handlers(config.ios, factories), config.connections, i)
  {
    if config.ios != [] { BootedHandler(fold, config, factories, 0); }
    forall i | 0 <= i < |config.ios|
      ensures var h, io := Booted(fold, config, factories).hs[i], config.ios[i];
              && h.name == io.id && h.echo == IsEcho(io, factories)
              && h.relay && h.controls == 1 && h.read == h.written == 0 && h.sent == []
              && h.outs == TargetsOf(fold, Handlers(config.ios, factories), config.connections, i)
    {
      BootedHandler(fold, config, factories, i);
    }
  }

  class ConsoleApplication {
    const fold: string -> string
    const factories: Factories

    constructor (fold: string -> string, factories: Factories)
      ensures this.fold == fold && this.factories == factories
    {
      this.fold, this.factories := fold, factories;
    }

    /** All IOs, then all connections, then the start; the first error ends it.  Its precondition is the
        exact condition under which it returns. */
    method Start(arguments: seq<string>) returns (engine: Engine, r: Result<(), string>)
      requires arguments != [] && Parse(arguments, NOTHING).error == None ==>
                 StartReturns(Parse(arguments, NOTHING).state.ios, factories)
      ensures fresh(engine) && engine.fold == fold && engine.Valid()
      ensures r.Success? <==>
                && arguments != [] && Parse(arguments, NOTHING).error == None
                && Acceptable(fold, Parse(arguments, NOTHING).state, factories)
      ensures r.Success? ==> engine.GetSys() == Booted(fold, Parse(arguments, NOTHING).state, factories)
      ensures r.Failure? ==> !engine.started
      ensures r.Failure? && arguments != [] && Parse(arguments, NOTHING).error.Some? ==>
                Parse(arguments, NOTHING).error == Some(r.error)
      ensures r.Failure? && arguments != [] && Parse(arguments, NOTHING).error == None ==>
                var config := Parse(arguments, NOTHING).state;
                if AllCreatable(config.ios, factories) then
                  FirstUnknown(fold, Handlers(config.ios, factories), config.connections, r.error)
                else RefusedWith(config.ios, factories, r.error)
    {
      engine := new Engine(fold);
      var config := new CmdLineConfig();
      r := config.FromArguments(arguments);
      if r.Failure? {
        return;
      }
      r := Configure(engine, config.ios, config.connections);
    }

    /** What follows once the arguments have been read. */
    method Configure(engine: Engine, ios: seq<IoConfig>, connections: seq<(string, string)>)
      returns (r: Result<(), string>)
      requires engine.Valid() && engine.fold == fold && engine.handlers == [] && !engine.started
      requires StartReturns(ios, factories)
      modifies engine
      ensures engine.Valid()
      ensures r.Success? <==> AllCreatable(ios, factories) && Resolvable(fold, Handlers(ios, factories), connections)
      ensures r.Success? ==> engine.GetSys() == Booted(fold, Parsed(ios, connections, None), factories)
      ensures r.Failure? ==>
                if AllCreatable(ios, factories) then FirstUnknown(fold, Handlers(ios, factories), connections, r.error)
                else RefusedWith(ios, factories, r.error)
      ensures r.Failure? ==> !engine.started
    {
      r := AddIOs(engine, ios);
      if r.Failure? {
        return;
      }
      forall i | 0 <= i < |engine.handlers|
        ensures fresh(engine.handlers[i])
      {
        assert engine.handlers[i] in engine.handlers;
      }
      r := AddConnections(engine, connections);
      if r.Failure? {
        return;
      }
      engine.Start(ScriptsOf(ios, factories));
    }

    method AddIOs(engine: Engine, ios: seq<IoConfig>) returns (r: Result<(), string>)
      requires engine.Valid() && engine.handlers == [] && !engine.started
      requires StartReturns(ios, factories)
      modifies engine`handlers, engine`events
      ensures engine.Valid() && forall h :: h in engine.handlers ==> fresh(h)
      ensures !engine.started
      ensures r.Success? <==> AllCreatable(ios, factories)
      ensures r.Success? ==> engine.GetSys() == Sys(Handlers(ios, factories), false)
      ensures r.Failure? ==> RefusedWith(ios, factories, r.error)
    {
      for n := 0 to |ios|
        invariant forall h :: h in engine.handlers ==> fresh(h)
        invariant engine.Valid() && !engine.started
        invariant AllCreatable(ios[..n], factories)
        invariant engine.GetSys() == Sys(Handlers(ios[..n], factories), false)
      {
        HandlersNext(ios, n, factories);
        r := AddConfigured(engine, ios[n]);
        if r.Failure? {
          return;
        }
      }
      assert ios[..|ios|] == ios;
      return Success(());
    }

    method AddConfigured(engine: Engine, io: IoConfig) returns (r: Result<(), string>)
      requires engine.Valid() && !engine.started && CreateReturns(io, factories)
      modifies engine`handlers, engine`events
      ensures engine.Valid() && !engine.started
      ensures forall h :: h in engine.handlers ==> h in old(engine.handlers) || fresh(h)
      ensures r.Success? <==> Creatable(io, factories)
      ensures r.Success? ==>
                engine.GetSys() == Sys(old(engine.GetSys().hs) + [Created(io.id, IsEcho(io, factories))], false)
      ensures r.Failure? && io.kind in factories ==> factories[io.kind].create(io.parameters) == Refused(r.error)
    {
      if io.kind !in factories {
        return Failure("factory not registered");
      }
      match factories[io.kind].create(io.parameters)
      case Endless => assert false;
      case Refused(error) => return Failure(error);
      case Made(script) =>
        engine.AddIO(io.id, factories[io.kind].echo, script);
        return Success(());
    }

    method AddConnections(engine: Engine, connections: seq<(string, string)>) returns (r: Result<(), string>)
      requires engine.Valid() && engine.fold == fold && !engine.started
      modifies engine.handlers`targets, engine`events
      ensures engine.Valid()
      ensures r.Success? <==> Resolvable(fold, old(engine.GetSys().hs), connections)
      ensures r.Success? ==> engine.GetSys() == Sys(ConnectedAll(fold, old(engine.GetSys().hs), connections), false)
      ensures r.Failure? ==> FirstUnknown(fold, old(engine.GetSys().hs), connections, r.error)
    {
      ghost var bare := engine.GetSys().hs;
      for n := 0 to |connections|
        invariant engine.Valid()
        invariant Resolvable(fold, bare, connections[..n])
        invariant engine.GetSys() == Sys(ConnectedAll(fold, bare, connections[..n]), false)
      {
        SameResolution(fold, bare, connections[..n], connections[n].0);
        SameResolution(fold, bare, connections[..n], connections[n].1);
        ConnectedNext(fold, bare, connections, n);
        ResolvableNext(fold, bare, connections, n);
        var ok := engine.AddConnection(connections[n].0, connections[n].1);
        if ok.Failure? {
          return ok;
        }
      }
      assert connections[..|connections|] == connections;
      return Success(());
    }
  }

  /** Names resolve as they did before any connection was made. */
  lemma {:induction false} SameResolution(
    fold: string -> string, bare: seq<View>, cs: seq<(string, string)>, id: string)
    requires Resolvable(fold, bare, cs)
    ensures Find(fold, ConnectedAll(fold, bare, cs), id) == Find(fold, bare, id)
  {
    ConnectedAllIs(fold, bare, cs);
    FindByName(fold, bare, ConnectedAll(fold, bare, cs), id, 0);
  }

  lemma {:induction false} ConnectedNext(fold: string -> string, bare: seq<View>, cs: seq<(string, string)>, n: nat)
    requires n < |cs|
    ensures ConnectedAll(fold, bare, cs[..n + 1])
         == Connected(fold, Sys(ConnectedAll(fold, bare, cs[..n]), false), cs[n].0, cs[n].1).hs
  {
    assert cs[..n + 1][..n] == cs[..n] && cs[..n + 1][n] == cs[n];
  }

  lemma HandlersNext(ios: seq<IoConfig>, n: nat, factories: Factories)
    requires n < |ios|
    ensures Handlers(ios[..n + 1], factories)
         == Handlers(ios[..n], factories) + [Created(ios[n].id, IsEcho(ios[n], factories))]
    ensures AllCreatable(ios[..n + 1], factories) <==> AllCreatable(ios[..n], factories) && Creatable(ios[n], factories)
    ensures AllCreatable(ios, factories) ==> Creatable(ios[n], factories)
  {
  }

  lemma ResolvableNext(fold: string -> string, bare: seq<View>, cs: seq<(string, string)>, n: nat)
    requires n < |cs|
    ensures Resolvable(fold, bare, cs[..n + 1]) <==>
            Resolvable(fold, bare, cs[..n]) && Find(fold, bare, cs[n].0).Some? && Find(fold, bare, cs[n].1).Some?
    ensures Resolvable(fold, bare, cs) ==> Find(fold, bare, cs[n].0).Some? && Find(fold, bare, cs[n].1).Some?
  {
  }
}
