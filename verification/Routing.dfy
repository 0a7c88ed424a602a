/**
  One emission of `newData` in a network of handlers.

  A connection delivers by a nested call, so a packet that reaches an echo IO is re-emitted
  before the call that handed it over returns.  This module says, on values, when that unfolding
  returns at all, which `writeData` calls it makes and in which order, and how many.
*/
module Routing {
  import opened Sequences

  /** What one delivery needs to know of a handler: whether it is Started, whether its IO gives
      back what is written to it (an EchoIO whose newData relay is intact), and the handlers its
      own newData is connected to, in connection order and with duplicates. */
  datatype Node = Node(started: bool, echoes: bool, outs: seq<nat>)

  type Network = seq<Node>

  ghost predicate Closed(net: Network)
  {
    forall v, t :: 0 <= v < |net| && t in net[v].outs ==> t < |net|
  }

  /** A packet written to handler `v` is emitted again by `v`. */
  predicate Forwards(net: Network, v: nat)
  {
    v < |net| && net[v].started && net[v].echoes
  }

  /** The nested calls made for the targets `ts` return, using at most `depth` nested emissions. */
  ghost predicate Returns(net: Network, depth: nat, ts: seq<nat>)
    decreases depth
  {
    forall t | t in ts && Forwards(net, t) :: depth > 0 && Returns(net, depth - 1, net[t].outs)
  }

  /** The `writeData` calls, in call order, made for the targets `ts[k..]`. */
  ghost function Walk(net: Network, depth: nat, ts: seq<nat>, k: nat): (calls: seq<nat>)
    requires k <= |ts| && Returns(net, depth, ts)
    decreases depth, |ts| - k
  {
    if k == |ts| then []
    else Visit(net, depth, ts[k]) + Walk(net, depth, ts, k + 1)
  }

  /** The calls made by one `writeData` call on `t`, itself included. */
  ghost function Visit(net: Network, depth: nat, t: nat): (calls: seq<nat>)
    requires Returns(net, depth, [t])
    decreases depth, 0
  {
    if Forwards(net, t) then
      assert t in [t];
      [t] + Walk(net, depth - 1, net[t].outs, 0)
    else [t]
  }

  // ---------------------------------------------------------------------------------------------
  // Termination: the nested calls return exactly when no relaying handler can be met twice
  // ---------------------------------------------------------------------------------------------

  /** `c` is a possible stack of nested emissions: forwarding handlers, each connected to the next,
      the first of them among `ts`. */
  ghost predicate Chain(net: Network, ts: seq<nat>, c: seq<nat>)
  {
    && (c != [] ==> c[0] in ts)
    && (forall i :: 0 <= i < |c| ==> Forwards(net, c[i]))
    && (forall i :: 0 < i < |c| ==> c[i] in net[c[i - 1]].outs)
  }

  /** No chain of relays that starts at `ts` meets a handler twice. */
  ghost predicate NoCycleFrom(net: Network, ts: seq<nat>)
  {
    forall c: seq<nat> :: Chain(net, ts, c) ==> Distinct(c)
  }

  lemma {:induction false} Pigeonhole(c: seq<nat>, n: nat)
    requires Distinct(c)
    requires forall i :: 0 <= i < |c| ==> c[i] < n
    ensures |c| <= n
    decreases n
  {
    if c != [] {
      assert c[0] < n;
      if n - 1 in c {
        var i :| 0 <= i < |c| && c[i] == n - 1;
        var d := c[..i] + c[i + 1..];
        assert forall j :: 0 <= j < |d| ==> d[j] == c[if j < i then j else j + 1];
        Pigeonhole(d, n - 1);
      } else {
        Pigeonhole(c, n - 1);
      }
    }
  }

  /** `c` is the stack so far; what it has left of the handlers bounds how deep it can still go. */
  lemma {:induction false} NoCycleReturns(net: Network, roots: seq<nat>, c: seq<nat>, ts: seq<nat>)
    requires NoCycleFrom(net, roots) && Chain(net, roots, c) && |c| <= |net|
    requires ts == if c == [] then roots else net[c[|c| - 1]].outs
    ensures Returns(net, |net| - |c|, ts)
    decreases |net| - |c|
  {
    forall t | t in ts && Forwards(net, t)
      ensures |net| > |c| && Returns(net, |net| - |c| - 1, net[t].outs)
    {
      var d := c + [t];
      assert Chain(net, roots, d);
      Pigeonhole(d, |net|);
      NoCycleReturns(net, roots, d, net[t].outs);
    }
  }

  /** Following a chain uses one unit of depth for each handler in it. */
  lemma {:induction false} Follow(net: Network, depth: nat, ts: seq<nat>, c: seq<nat>)
    requires Returns(net, depth, ts) && Chain(net, ts, c) && c != []
    ensures |c| <= depth && Returns(net, depth - |c|, net[c[|c| - 1]].outs)
    decreases |c|
  {
    assert Forwards(net, c[0]);
    if |c| > 1 {
      var d := c[1..];
      assert d[0] == c[1] && Forwards(net, c[1]);
      forall i | 0 < i < |d|
        ensures d[i] in net[d[i - 1]].outs
      {
        assert c[i + 1] in net[c[i + 1 - 1]].outs;
      }
      Follow(net, depth - 1, net[c[0]].outs, d);
    }
  }

  /** Once a chain leads from a handler back to itself, no depth is enough. */
  lemma {:induction false} CycleNeverReturns(net: Network, depth: nat, v: nat, cycle: seq<nat>)
    requires Forwards(net, v) && cycle != [] && cycle[|cycle| - 1] == v
    requires Chain(net, net[v].outs, cycle)
    ensures !Returns(net, depth, net[v].outs)
    decreases depth
  {
    if Returns(net, depth, net[v].outs) {
      Follow(net, depth, net[v].outs, cycle);
      CycleNeverReturns(net, depth - |cycle|, v, cycle);
    }
  }

  lemma {:induction false} RepeatNeverReturns(net: Network, depth: nat, ts: seq<nat>, c: seq<nat>, i: nat, j: nat)
    requires Chain(net, ts, c) && i < j < |c| && c[i] == c[j]
    ensures !Returns(net, depth, ts)
  {
    if Returns(net, depth, ts) {
      var before, cycle := c[..i + 1], c[i + 1..j + 1];
      assert Chain(net, ts, before);
      Follow(net, depth, ts, before);
      assert Chain(net, net[c[i]].outs, cycle) by {
        assert cycle[0] == c[i + 1] && c[i + 1] in net[c[i + 1 - 1]].outs;
        forall m | 0 < m < |cycle|
          ensures cycle[m] in net[cycle[m - 1]].outs
        {
          assert c[i + 1 + m] in net[c[i + 1 + m - 1]].outs;
        }
      }
      CycleNeverReturns(net, depth - (i + 1), c[i], cycle);
    }
  }

  /** The delivery to `ts` returns for some depth, if and only if it returns within as many nested
      emissions as there are handlers, if and only if no chain of relays from `ts` has a cycle. */
  lemma {:induction false} TerminatesExactly(net: Network, ts: seq<nat>)
    ensures Returns(net, |net|, ts) <==> NoCycleFrom(net, ts)
    ensures (exists depth: nat :: Returns(net, depth, ts)) <==> NoCycleFrom(net, ts)
  {
    if NoCycleFrom(net, ts) {
      NoCycleReturns(net, ts, [], ts);
    } else {
      var c: seq<nat> :| Chain(net, ts, c) && !Distinct(c);
      var i, j :| 0 <= i < j < |c| && c[i] == c[j];
      forall depth: nat
        ensures !Returns(net, depth, ts)
      {
        RepeatNeverReturns(net, depth, ts, c, i, j);
      }
    }
  }

  /** The calls made do not depend on the depth that was allowed. */
  lemma {:induction false} WalkDepth(net: Network, d: nat, e: nat, ts: seq<nat>, k: nat)
    requires k <= |ts| && Returns(net, d, ts) && Returns(net, e, ts)
    ensures Walk(net, d, ts, k) == Walk(net, e, ts, k)
    decreases d, |ts| - k
  {
    if k < |ts| {
      if Forwards(net, ts[k]) { WalkDepth(net, d - 1, e - 1, net[ts[k]].outs, 0); }
      WalkDepth(net, d, e, ts, k + 1);
    }
  }

  // ---------------------------------------------------------------------------------------------
  // The calls are the connection paths, one for one, in lexicographic order
  // ---------------------------------------------------------------------------------------------

  /** A connection path from the targets `ts`, given by the position of the connection taken at
      each step, so that parallel connections make different paths.  Every handler on it but the
      last forwards. */
  ghost predicate IsPath(net: Network, ts: seq<nat>, p: seq<nat>)
    decreases |p|
  {
    && p != []
    && p[0] < |ts|
    && (|p| > 1 ==> Forwards(net, ts[p[0]]) && IsPath(net, net[ts[p[0]]].outs, p[1..]))
  }

  /** The handler a path leads to. */
  ghost function End(net: Network, ts: seq<nat>, p: seq<nat>): nat
    requires IsPath(net, ts, p)
    decreases |p|
  {
    if |p| == 1 then ts[p[0]] else End(net, net[ts[p[0]]].outs, p[1..])
  }

  /** Lexicographic order; a path comes before its extensions. */
  ghost predicate Before(p: seq<nat>, q: seq<nat>)
  {
    q != [] && (p == [] || p[0] < q[0] || (p[0] == q[0] && Before(p[1..], q[1..])))
  }

  ghost predicate Ascending(ps: seq<seq<nat>>)
  {
    forall i, j :: 0 <= i < j < |ps| ==> Before(ps[i], ps[j])
  }

  lemma {:induction false} BeforeIrreflexive(p: seq<nat>)
    ensures !Before(p, p)
  {
    if p != [] { BeforeIrreflexive(p[1..]); }
  }

  ghost function Under(k: nat, ps: seq<seq<nat>>): (r: seq<seq<nat>>)
    ensures |r| == |ps| && forall i :: 0 <= i < |ps| ==> r[i] == [k] + ps[i]
  {
    seq(|ps|, i requires 0 <= i < |ps| => [k] + ps[i])
  }

  /** All paths whose first step is at position `k` or later. */
  ghost function Paths(net: Network, depth: nat, ts: seq<nat>, k: nat): (ps: seq<seq<nat>>)
    requires k <= |ts| && Returns(net, depth, ts)
    decreases depth, |ts| - k
  {
    if k == |ts| then []
    else PathsAt(net, depth, ts, k) + Paths(net, depth, ts, k + 1)
  }

  /** All paths whose first step is at position `k`. */
  ghost function PathsAt(net: Network, depth: nat, ts: seq<nat>, k: nat): (ps: seq<seq<nat>>)
    requires k < |ts| && Returns(net, depth, ts)
    decreases depth, 0
  {
    [[k]] + if Forwards(net, ts[k]) then Under(k, Paths(net, depth - 1, net[ts[k]].outs, 0)) else []
  }

  /** `ps` lists paths from `ts` with first step in `[lo, hi)`, in order, and call `i` is made on
      the end of path `i`. */
  ghost predicate Lists(net: Network, ts: seq<nat>, lo: nat, hi: nat, ps: seq<seq<nat>>, calls: seq<nat>)
  {
    && |ps| == |calls|
    && Ascending(ps)
    && (forall i :: 0 <= i < |ps| ==>
          IsPath(net, ts, ps[i]) && lo <= ps[i][0] < hi && End(net, ts, ps[i]) == calls[i])
  }

  lemma ListsConcat(net: Network, ts: seq<nat>, lo: nat, mid: nat, hi: nat,
                    ps: seq<seq<nat>>, cs: seq<nat>, qs: seq<seq<nat>>, ds: seq<nat>)
    requires lo <= mid <= hi
    requires Lists(net, ts, lo, mid, ps, cs) && Lists(net, ts, mid, hi, qs, ds)
    ensures Lists(net, ts, lo, hi, ps + qs, cs + ds)
  {
  }

  lemma ListsUnder(net: Network, ts: seq<nat>, k: nat, ps: seq<seq<nat>>, cs: seq<nat>)
    requires k < |ts| && Forwards(net, ts[k])
    requires Lists(net, net[ts[k]].outs, 0, |net[ts[k]].outs|, ps, cs)
    ensures Lists(net, ts, k, k + 1, [[k]] + Under(k, ps), [ts[k]] + cs)
  {
  }

  lemma {:induction false} WalkListsPaths(net: Network, depth: nat, ts: seq<nat>, k: nat)
    requires k <= |ts| && Returns(net, depth, ts)
    ensures Lists(net, ts, k, |ts|, Paths(net, depth, ts, k), Walk(net, depth, ts, k))
    decreases depth, |ts| - k
  {
    if k < |ts| {
      var t := ts[k];
      if Forwards(net, t) {
        WalkListsPaths(net, depth - 1, net[t].outs, 0);
        ListsUnder(net, ts, k, Paths(net, depth - 1, net[t].outs, 0), Walk(net, depth - 1, net[t].outs, 0));
      }
      WalkListsPaths(net, depth, ts, k + 1);
      ListsConcat(net, ts, k, k + 1, |ts|, PathsAt(net, depth, ts, k), Visit(net, depth, t),
                  Paths(net, depth, ts, k + 1), Walk(net, depth, ts, k + 1));
    }
  }

  lemma {:induction false} PathsComplete(net: Network, depth: nat, ts: seq<nat>, k: nat, p: seq<nat>)
    requires k <= |ts| && Returns(net, depth, ts) && IsPath(net, ts, p) && k <= p[0]
    ensures p in Paths(net, depth, ts, k)
    decreases depth, |ts| - k
  {
    if k < p[0] {
      PathsComplete(net, depth, ts, k + 1, p);
    } else if |p| == 1 {
      assert p == [k] && PathsAt(net, depth, ts, k)[0] == p;
    } else {
      var ps := Paths(net, depth - 1, net[ts[k]].outs, 0);
      PathsComplete(net, depth - 1, net[ts[k]].outs, 0, p[1..]);
      var i :| 0 <= i < |ps| && ps[i] == p[1..];
      assert Under(k, ps)[i] == [k] + p[1..] == p;
      assert PathsAt(net, depth, ts, k)[i + 1] == p;
    }
  }

  /** The i-th `writeData` call is made on the end of the i-th connection path, the paths being all
      there are, each once, in lexicographic order of the connections taken. */
  lemma {:induction false} CallsAreThePathsInOrder(net: Network, depth: nat, ts: seq<nat>)
    requires Returns(net, depth, ts)
    ensures Lists(net, ts, 0, |ts|, Paths(net, depth, ts, 0), Walk(net, depth, ts, 0))
    ensures forall p :: p in Paths(net, depth, ts, 0) <==> IsPath(net, ts, p)
    ensures Distinct(Paths(net, depth, ts, 0))
  {
    var ps := Paths(net, depth, ts, 0);
    WalkListsPaths(net, depth, ts, 0);
    forall p | IsPath(net, ts, p)
      ensures p in ps
    {
      PathsComplete(net, depth, ts, 0, p);
    }
    forall i, j | 0 <= i < j < |ps|
      ensures ps[i] != ps[j]
    {
      BeforeIrreflexive(ps[i]);
    }
  }

  /** How often `v` is called. */
  ghost function Count(calls: seq<nat>, v: nat): nat
  {
    multiset(calls)[v]
  }

  lemma CountConcat(a: seq<nat>, b: seq<nat>, v: nat)
    ensures Count(a + b, v) == Count(a, v) + Count(b, v)
  {
  }

  /** Of the paths `ps`, those that lead to `v`. */
  ghost function LeadingTo(net: Network, ts: seq<nat>, ps: seq<seq<nat>>, v: nat): (r: set<seq<nat>>)
    requires forall p :: p in ps ==> IsPath(net, ts, p)
    ensures forall p :: p in r <==> p in ps && End(net, ts, p) == v
  {
    set p | p in ps && End(net, ts, p) == v
  }

  lemma {:induction false} LeadingToMore(net: Network, ts: seq<nat>, ps: seq<seq<nat>>, p: seq<nat>, v: nat)
    requires p !in ps && IsPath(net, ts, p) && forall q :: q in ps ==> IsPath(net, ts, q)
    ensures |LeadingTo(net, ts, ps + [p], v)| == |LeadingTo(net, ts, ps, v)| + if End(net, ts, p) == v then 1 else 0
  {
    var before := LeadingTo(net, ts, ps, v);
    assert LeadingTo(net, ts, ps + [p], v) == if End(net, ts, p) == v then before + {p} else before;
  }

  lemma {:induction false} CountEnds(net: Network, ts: seq<nat>, ps: seq<seq<nat>>, calls: seq<nat>, v: nat)
    requires Distinct(ps) && |ps| == |calls|
    requires forall i :: 0 <= i < |ps| ==> IsPath(net, ts, ps[i]) && End(net, ts, ps[i]) == calls[i]
    ensures |LeadingTo(net, ts, ps, v)| == Count(calls, v)
    decreases |ps|
  {
    if ps != [] {
      var n := |ps| - 1;
      var qs, ds := ps[..n], calls[..n];
      CountEnds(net, ts, qs, ds, v);
      assert ps == qs + [ps[n]] && calls == ds + [calls[n]];
      CountConcat(ds, [calls[n]], v);
      assert ps[n] !in qs;
      LeadingToMore(net, ts, qs, ps[n], v);
    } else {
      assert LeadingTo(net, ts, ps, v) == {};
    }
  }

  /** A handler's `writeData` is called exactly as often as there are connection paths to it. */
  lemma {:induction false} CallsCountPaths(net: Network, depth: nat, ts: seq<nat>, v: nat)
    returns (paths: set<seq<nat>>)
    requires Returns(net, depth, ts)
    ensures forall p :: p in paths <==> IsPath(net, ts, p) && End(net, ts, p) == v
    ensures Count(Walk(net, depth, ts, 0), v) == |paths|
  {
    var ps := Paths(net, depth, ts, 0);
    CallsAreThePathsInOrder(net, depth, ts);
    CountEnds(net, ts, ps, Walk(net, depth, ts, 0), v);
    paths := LeadingTo(net, ts, ps, v);
  }
}
