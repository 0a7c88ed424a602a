/**
  What a Handler is, as a value: its public state, its ledgers, and the Qt connections it takes
  part in.  The class in Proxy is proved against these functions.
*/
module HandlerState {
  import opened Wrappers

  datatype State = Stopped | Started | Failed

  /** The signals of an IO that only `Handler::start` connects. */
  datatype Control =
    | IoStarted
    | IoStartupError(message: string)
    | IoError(message: string)

  newtype Byte = b: int | 0 <= b < 256

  type Packet = seq<Byte>

  function TotalBytes(ps: seq<Packet>): nat
    decreases |ps|
  {
    if ps == [] then 0 else TotalBytes(ps[..|ps| - 1]) + |ps[|ps| - 1]|
  }

  /** `stateChanges` and `errorChanges` count the emissions of stateChanged and
      errorMessageChanged. */
  datatype Status = Status(state: State, error: string, stateChanges: nat, errorChanges: nat)

  /** `sent` lists what was handed to the IO.  `relay` is the connection from the IO's newData made
      in the constructor; `controls` counts the sets of control connections made by `start`; `outs`
      are the handlers its own newData is connected to. */
  datatype View = View(
    name: string, echo: bool, status: Status,
    read: int, written: int, sent: seq<Packet>,
    relay: bool, controls: nat, outs: seq<nat>)

  function Created(name: string, echo: bool): View
  {
    View(name, echo, Status(Stopped, "", 0, 0), 0, 0, [], true, 0, [])
  }

  function SetState(s: Status, state: State): Status
  {
    if s.state != state then s.(state := state, stateChanges := s.stateChanges + 1) else s
  }

  function SetError(s: Status, message: string): Status
  {
    if s.error != message then s.(error := message, errorChanges := s.errorChanges + 1) else s
  }

  /** One delivery of a control signal. */
  function Receive(s: Status, c: Control): Status
  {
    match c
    case IoStarted => SetState(SetError(s, ""), Started)
    case IoStartupError(m) => SetState(SetError(s, m), Failed)
    case IoError(m) => SetState(SetError(s, m), Failed)
  }

  function ReceiveTimes(s: Status, c: Control, times: nat): Status
  {
    if times == 0 then s else Receive(ReceiveTimes(s, c, times - 1), c)
  }

  /** The IO emits the signals `cs`, each delivered once over each of `controls` connections. */
  function Raise(s: Status, cs: seq<Control>, controls: nat): Status
    decreases |cs|
  {
    if cs == [] then s
    else ReceiveTimes(Raise(s, cs[..|cs| - 1], controls), cs[|cs| - 1], controls)
  }

  /** `Handler::start`, where `IOBase::start` emits the signals `script` before it returns. */
  function Start(h: View, script: seq<Control>): View
  {
    h.(controls := h.controls + 1, status := Raise(h.status, script, h.controls + 1))
  }

  function Stop(h: View): View
  {
    h.(relay := false, controls := 0)
  }

  // ---------------------------------------------------------------------------------------------
  // Notifications
  // ---------------------------------------------------------------------------------------------

  lemma {:induction false} DuplicatesAreOne(s: Status, c: Control, times: nat)
    requires times >= 1
    ensures ReceiveTimes(s, c, times) == Receive(s, c)
    decreases times
  {
    if times > 1 {
      DuplicatesAreOne(s, c, times - 1);
    } else {
      assert ReceiveTimes(s, c, 0) == s;
    }
  }

  lemma {:induction false} UnconnectedRaise(s: Status, cs: seq<Control>)
    ensures Raise(s, cs, 0) == s
    decreases |cs|
  {
    if cs != [] { UnconnectedRaise(s, cs[..|cs| - 1]); }
  }

  /** The statuses seen while `cs` are delivered, duplicates one by one. */
  ghost function Seen(s: Status, cs: seq<Control>, controls: nat): seq<Status>
    decreases |cs|
  {
    if cs == [] then []
    else
      var before := cs[..|cs| - 1];
      Seen(s, before, controls) + Repeats(Raise(s, before, controls), cs[|cs| - 1], controls)
  }

  ghost function Repeats(s: Status, c: Control, times: nat): seq<Status>
    decreases times
  {
    if times == 0 then [] else Repeats(s, c, times - 1) + [ReceiveTimes(s, c, times)]
  }

  /** How often neighbours in `s` differ, in state and in message. */
  ghost function StateChanges(s: seq<Status>): nat
    decreases |s|
  {
    if |s| < 2 then 0
    else StateChanges(s[..|s| - 1]) + if s[|s| - 2].state != s[|s| - 1].state then 1 else 0
  }

  ghost function ErrorChanges(s: seq<Status>): nat
    decreases |s|
  {
    if |s| < 2 then 0
    else ErrorChanges(s[..|s| - 1]) + if s[|s| - 2].error != s[|s| - 1].error then 1 else 0
  }

  /** The history `seen`, which began with counters `s0`, accounts for the counters of `s`. */
  ghost predicate Accounts(s0: Status, seen: seq<Status>, s: Status)
  {
    && seen != [] && seen[|seen| - 1] == s
    && s.stateChanges == s0.stateChanges + StateChanges(seen)
    && s.errorChanges == s0.errorChanges + ErrorChanges(seen)
  }

  lemma ReceiveAccounts(s0: Status, seen: seq<Status>, s: Status, c: Control)
    requires Accounts(s0, seen, s)
    ensures Accounts(s0, seen + [Receive(s, c)], Receive(s, c))
  {
  }

  lemma {:induction false} RepeatsAccount(s0: Status, seen: seq<Status>, s: Status, c: Control, times: nat)
    requires Accounts(s0, seen, s)
    ensures Accounts(s0, seen + Repeats(s, c, times), ReceiveTimes(s, c, times))
    decreases times
  {
    if times == 0 {
      assert seen + Repeats(s, c, 0) == seen;
    } else {
      var prior := seen + Repeats(s, c, times - 1);
      RepeatsAccount(s0, seen, s, c, times - 1);
      ReceiveAccounts(s0, prior, ReceiveTimes(s, c, times - 1), c);
      assert seen + Repeats(s, c, times) == prior + [ReceiveTimes(s, c, times)];
    }
  }

  lemma {:induction false} RaiseAccounts(s0: Status, seen: seq<Status>, s: Status, cs: seq<Control>, controls: nat)
    requires Accounts(s0, seen, s)
    ensures Accounts(s0, seen + Seen(s, cs, controls), Raise(s, cs, controls))
    decreases |cs|
  {
    if cs == [] {
      assert seen + Seen(s, cs, controls) == seen;
    } else {
      var before, c := cs[..|cs| - 1], cs[|cs| - 1];
      var mid := Raise(s, before, controls);
      var all := seen + Seen(s, before, controls);
      assert seen + Seen(s, cs, controls) == all + Repeats(mid, c, controls);
      RaiseAccounts(s0, seen, s, before, controls);
      RepeatsAccount(s0, all, mid, c, controls);
    }
  }

  // ---------------------------------------------------------------------------------------------
  // Runs of a handler
  // ---------------------------------------------------------------------------------------------

  /** What can happen to a handler's control side: it is started, its IO emitting `script` meanwhile,
      it is stopped, or its IO emits a signal later on. */
  datatype Call =
    | StartCall(script: seq<Control>)
    | StopCall
    | SignalCall(c: Control)

  function AfterCall(h: View, call: Call): View
  {
    match call
    case StartCall(script) => Start(h, script)
    case StopCall => Stop(h)
    case SignalCall(c) => h.(status := Raise(h.status, [c], h.controls))
  }

  function Run(h: View, calls: seq<Call>): View
    decreases |calls|
  {
    if calls == [] then h else AfterCall(Run(h, calls[..|calls| - 1]), calls[|calls| - 1])
  }

  ghost function SeenInCall(h: View, call: Call): seq<Status>
  {
    match call
    case StartCall(script) => Seen(h.status, script, h.controls + 1)
    case StopCall => []
    case SignalCall(c) => Seen(h.status, [c], h.controls)
  }

  /** All statuses of a run, one for each delivery, the first being the one it began with. */
  ghost function RunHistory(h: View, calls: seq<Call>): seq<Status>
    decreases |calls|
  {
    if calls == [] then [h.status]
    else
      var before := calls[..|calls| - 1];
      RunHistory(h, before) + SeenInCall(Run(h, before), calls[|calls| - 1])
  }

  /** Over any run of starts, stops and signals, in which a signal is delivered as often as the handler
      was started since its last stop, stateChanged is emitted once for each pair of different
      neighbouring states, and errorMessageChanged once for each pair of different messages. */
  lemma {:induction false} RunNotifiesExactlyChanges(h: View, calls: seq<Call>)
    ensures Run(h, calls).status.stateChanges == h.status.stateChanges + StateChanges(RunHistory(h, calls))
    ensures Run(h, calls).status.errorChanges == h.status.errorChanges + ErrorChanges(RunHistory(h, calls))
    ensures Accounts(h.status, RunHistory(h, calls), Run(h, calls).status)
    decreases |calls|
  {
    if calls != [] {
      var before, call := calls[..|calls| - 1], calls[|calls| - 1];
      RunNotifiesExactlyChanges(h, before);
      CallAccounts(h.status, RunHistory(h, before), Run(h, before), call);
    }
  }

  lemma {:induction false} CallAccounts(s0: Status, seen: seq<Status>, h: View, call: Call)
    requires Accounts(s0, seen, h.status)
    ensures Accounts(s0, seen + SeenInCall(h, call), AfterCall(h, call).status)
  {
    match call
    case StartCall(script) => RaiseAccounts(s0, seen, h.status, script, h.controls + 1);
    case StopCall => assert seen + [] == seen;
    case SignalCall(c) => RaiseAccounts(s0, seen, h.status, [c], h.controls);
  }

  /** Delivers each signal of `cs` once. */
  function ReceiveAll(s: Status, cs: seq<Control>): Status
    decreases |cs|
  {
    if cs == [] then s else Receive(ReceiveAll(s, cs[..|cs| - 1]), cs[|cs| - 1])
  }

  /** A call in which each signal is delivered once if there is any connection for it, and not at all
      otherwise. */
  function SingleCall(h: View, call: Call): View
  {
    match call
    case StartCall(script) => h.(controls := h.controls + 1, status := ReceiveAll(h.status, script))
    case StopCall => Stop(h)
    case SignalCall(c) => if h.controls > 0 then h.(status := Receive(h.status, c)) else h
  }

  function SingleRun(h: View, calls: seq<Call>): View
    decreases |calls|
  {
    if calls == [] then h else SingleCall(SingleRun(h, calls[..|calls| - 1]), calls[|calls| - 1])
  }

  /** However often it was started, a handler's state, message and notifications are those of the run in
      which every signal is delivered at most once. */
  lemma {:induction false} RepeatedStartsChangeNothing(h: View, calls: seq<Call>)
    ensures Run(h, calls) == SingleRun(h, calls)
    decreases |calls|
  {
    if calls != [] {
      RepeatedStartsChangeNothing(h, calls[..|calls| - 1]);
      CallOnce(Run(h, calls[..|calls| - 1]), calls[|calls| - 1]);
    }
  }

  lemma {:induction false} CallOnce(h: View, call: Call)
    ensures AfterCall(h, call) == SingleCall(h, call)
  {
    match call
    case StartCall(script) => RaiseOnce(h.status, script, h.controls + 1);
    case StopCall =>
    case SignalCall(c) =>
      if h.controls > 0 {
        RaiseOnce(h.status, [c], h.controls);
        assert ReceiveAll(h.status, []) == h.status;
      } else {
        UnconnectedRaise(h.status, [c]);
      }
  }

  lemma {:induction false} RaiseOnce(s: Status, cs: seq<Control>, controls: nat)
    requires controls >= 1
    ensures Raise(s, cs, controls) == ReceiveAll(s, cs)
    decreases |cs|
  {
    if cs != [] {
      RaiseOnce(s, cs[..|cs| - 1], controls);
      DuplicatesAreOne(ReceiveAll(s, cs[..|cs| - 1]), cs[|cs| - 1], controls);
    }
  }

  // ---------------------------------------------------------------------------------------------
  // What the last signal leaves
  // ---------------------------------------------------------------------------------------------

  /** State and message are those the last signal stands for, or those of a new handler if there was none. */
  ghost predicate SaidLast(s: Status, last: Option<Control>)
  {
    match last
    case None => s.state == Stopped && s.error == ""
    case Some(IoStarted) => s.state == Started && s.error == ""
    case Some(IoStartupError(m)) => s.state == Failed && s.error == m
    case Some(IoError(m)) => s.state == Failed && s.error == m
  }

  /** It was started since its last stop. */
  predicate StartedSinceStop(calls: seq<Call>)
    decreases |calls|
  {
    calls != [] &&
    match calls[|calls| - 1]
    case StartCall(_) => true
    case StopCall => false
    case SignalCall(_) => StartedSinceStop(calls[..|calls| - 1])
  }

  /** The last signal that was delivered: a script is delivered by the start, any other signal if the
      handler was started since its last stop. */
  function LastDelivered(calls: seq<Call>): Option<Control>
    decreases |calls|
  {
    if calls == [] then None
    else
      var prior := LastDelivered(calls[..|calls| - 1]);
      match calls[|calls| - 1]
      case StartCall(script) => if script == [] then prior else Some(script[|script| - 1])
      case StopCall => prior
      case SignalCall(c) => if StartedSinceStop(calls[..|calls| - 1]) then Some(c) else prior
  }

  lemma {:induction false} RaiseSaysLast(s: Status, cs: seq<Control>, controls: nat)
    requires controls >= 1 && cs != []
    ensures SaidLast(Raise(s, cs, controls), Some(cs[|cs| - 1]))
  {
    var before := Raise(s, cs[..|cs| - 1], controls);
    DuplicatesAreOne(before, cs[|cs| - 1], controls);
  }

  /** Over any run from a new handler: it is Started without a message exactly if the last signal
      delivered was started, and otherwise Failed with that signal's message; a stop changes neither. */
  lemma {:induction false} RunSaysLast(name: string, echo: bool, calls: seq<Call>)
    ensures SaidLast(Run(Created(name, echo), calls).status, LastDelivered(calls))
    ensures Run(Created(name, echo), calls).controls > 0 <==> StartedSinceStop(calls)
    decreases |calls|
  {
    if calls != [] {
      var before, call := calls[..|calls| - 1], calls[|calls| - 1];
      var h := Run(Created(name, echo), before);
      RunSaysLast(name, echo, before);
      CallSaysLast(h, call);
    }
  }

  lemma {:induction false} CallSaysLast(h: View, call: Call)
    ensures match call
            case StartCall(script) =>
              if script == [] then AfterCall(h, call).status == h.status
              else SaidLast(AfterCall(h, call).status, Some(script[|script| - 1]))
            case StopCall => AfterCall(h, call).status == h.status
            case SignalCall(c) =>
              if h.controls == 0 then AfterCall(h, call).status == h.status
              else SaidLast(AfterCall(h, call).status, Some(c))
  {
    match call
    case StartCall(script) => if script != [] { RaiseSaysLast(h.status, script, h.controls + 1); }
    case StopCall =>
    case SignalCall(c) =>
      if h.controls == 0 { UnconnectedRaise(h.status, [c]); } else { RaiseSaysLast(h.status, [c], h.controls); }
  }

  /** Starts, stops and signals leave the name, the ledgers and the connections to other handlers; the
      relay goes with the first stop. */
  lemma {:induction false} RunKeepsLedgers(h: View, calls: seq<Call>)
    ensures var r := Run(h, calls);
            && r.name == h.name && r.echo == h.echo && r.outs == h.outs
            && r.read == h.read && r.written == h.written && r.sent == h.sent
            && (r.relay <==> h.relay && StopCall !in calls)
    decreases |calls|
  {
    if calls != [] {
      RunKeepsLedgers(h, calls[..|calls| - 1]);
      assert calls == calls[..|calls| - 1] + [calls[|calls| - 1]];
    }
  }
}
