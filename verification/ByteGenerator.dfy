/**
  The byte generator: how many packets it emits per timer tick for a wanted rate, and its chains of
  single-shot timers.
*/
module ByteGenerator {
  import opened Arithmetic
  import opened Wrappers

  // ---------------------------------------------------------------------------------------------
  // The rate
  // ---------------------------------------------------------------------------------------------

  function Ceil(x: real): int
  {
    -(-x).Floor
  }

  lemma CompareProducts(x: int, y: int, z: nat)
    requires x * z < y * z
    ensures x < y
  {
  }

  lemma TimesReal(x: real, y: real, z: real)
    requires z > 0.0
    ensures x < y ==> x * z < y * z
    ensures x <= y ==> x * z <= y * z
  {
  }

  lemma ProductAsReal(x: int, y: int)
    ensures (x * y) as real == x as real * y as real
  {
  }

  lemma CeilIs(x: real)
    ensures (Ceil(x) - 1) as real < x <= Ceil(x) as real
  {
  }

  lemma Quotient(a: int, b: nat)
    requires b > 0
    ensures a as real / b as real * b as real == a as real
  {
  }

  lemma Scaled(a: int, b: nat, x: real, p: int, q: int, low: int, high: int)
    requires b > 0 && x * b as real == a as real && p as real < x <= q as real
    requires low == p * b && high == q * b
    ensures low < a <= high
  {
    var z := b as real;
    TimesReal(p as real, x, z);
    TimesReal(x, q as real, z);
    ProductAsReal(p, b);
    ProductAsReal(q, b);
    assert low as real == p as real * z && high as real == q as real * z;
    assert low as real < a as real <= high as real;
  }

  /** `p` is below the quotient `x` of `a` and `b`, and `q` is not. */
  lemma QuotientBetween(a: int, b: nat, x: real, p: int, q: int)
    requires b > 0 && x * b as real == a as real && p as real < x <= q as real
    ensures p * b < a <= q * b
  {
    var low, high := p * b, q * b;
    Scaled(a, b, x, p, q, low, high);
  }

  lemma CeilBetween(a: int, b: nat)
    requires b > 0
    ensures var q := Ceil(a as real / b as real); (q - 1) * b < a <= q * b
  {
    var x := a as real / b as real;
    CeilIs(x);
    Quotient(a, b);
    QuotientBetween(a, b, x, Ceil(x) - 1, Ceil(x));
  }

  /** Packets per second and packets per tick, as the constructor computes them. */
  function PerSecond(rate: nat, size: nat): int
    requires size > 0
  {
    Ceil(rate as real / size as real)
  }

  function PerTick(rate: nat, size: nat): int
    requires size > 0
  {
    Ceil(PerSecond(rate, size) as real / 10.0)
  }

  /** Rounding up twice is rounding up once: the packets per tick are the least number for which ten
      ticks reach the rate, and they exceed it by less than ten packets. */
  lemma TenTicksReachTheRate(rate: nat, size: nat)
    requires size > 0
    ensures var k := PerTick(rate, size);
            && k == Ceil(rate as real / (10 * size) as real)
            && 0 <= k
            && rate <= 10 * k * size < rate + 10 * size
            && forall j: nat :: rate <= 10 * j * size ==> k <= j
  {
    var q, k := PerSecond(rate, size), PerTick(rate, size);
    CeilBetween(rate, size);
    CeilBetween(q, 10);
    Times(q, 10 * k, size);
    Times(10 * k - 10, q - 1, size);
    TimesSum(10 * k - 10, 10, size);
    forall j: nat | rate <= 10 * j * size
      ensures k <= j
    {
      CompareProducts(q - 1, 10 * j, size);
    }
    CompareProducts(-10, 10 * k, size);
    var c, m := Ceil(rate as real / (10 * size) as real), 10 * size;
    CeilBetween(rate, m);
    TenTimes(k, size);
    TimesSum(k - 1, 1, m);
    CompareProducts(k - 1, c, m);
    CompareProducts(c - 1, k, m);
  }

  lemma TenTimes(k: int, size: nat)
    ensures k * (10 * size) == 10 * k * size
  {
  }

  // ---------------------------------------------------------------------------------------------
  // The timers
  // ---------------------------------------------------------------------------------------------

  /** `pending` counts the single-shot timers waiting to fire, `packets` the emissions of newData. */
  datatype Generator = Generator(run: bool, pending: nat, packets: int)

  function Ticked(g: Generator, k: int): Generator
  {
    if g.run then g.(pending := g.pending + 1, packets := g.packets + if k > 0 then k else 0) else g
  }

  class ByteGeneratorIO {
    const packetSize: nat
    const packetsPerSecond: int
    const packetsPerNextCall: int
    var run: bool
    ghost var pending: nat
    ghost var packets: int

    ghost function GetGenerator(): Generator
      reads this
    {
      Generator(run, pending, packets)
    }

    constructor (bytesPerSecond: nat, packetSize: nat)
      requires packetSize > 0
      ensures packetsPerNextCall == PerTick(bytesPerSecond, packetSize) && this.packetSize == packetSize
      ensures bytesPerSecond <= 10 * packetsPerNextCall * packetSize < bytesPerSecond + 10 * packetSize
      ensures (packetsPerSecond - 1) * packetSize < bytesPerSecond <= packetsPerSecond * packetSize
      ensures GetGenerator() == Generator(false, 0, 0)
    {
      this.packetSize := packetSize;
      var perSecond := Ceil(bytesPerSecond as real / packetSize as real);
      packetsPerSecond := perSecond;
      packetsPerNextCall := Ceil(perSecond as real / 10.0);
      run, pending, packets := false, 0, 0;
      TenTicksReachTheRate(bytesPerSecond, packetSize);
      CeilBetween(bytesPerSecond, packetSize);
    }

    method Start()
      modifies this
      ensures GetGenerator() == Ticked(old(GetGenerator()).(run := true), packetsPerNextCall)
    {
      run := true;
      Next();
    }

    method Stop()
      modifies this
      ensures GetGenerator() == old(GetGenerator()).(run := false)
    {
      run := false;
    }

    method Next()
      modifies this
      ensures GetGenerator() == Ticked(old(GetGenerator()), packetsPerNextCall)
    {
      if !run {
        return;
      }
      var i := 0;
      while i < packetsPerNextCall
        invariant GetGenerator() == old(GetGenerator()).(packets := old(packets) + i)
        invariant i == 0 || i <= packetsPerNextCall
      {
        packets := packets + 1;
        i := i + 1;
      }
      pending := pending + 1;
    }
  }

  datatype Event = Start | Stop | Fire

  function Step(g: Generator, e: Event, k: int): Generator
    requires e == Fire ==> g.pending > 0
  {
    match e
    case Start => Ticked(g.(run := true), k)
    case Stop => g.(run := false)
    case Fire => Ticked(g.(pending := g.pending - 1), k)
  }

  /** The generator after a run, if no timer fired that was not pending. */
  function Exec(es: seq<Event>, k: int): Option<Generator>
    decreases |es|
  {
    if es == [] then Some(Generator(false, 0, 0))
    else
      match Exec(es[..|es| - 1], k)
      case None => None
      case Some(g) => if es[|es| - 1] == Fire && g.pending == 0 then None else Some(Step(g, es[|es| - 1], k))
  }

  /** The last call among `es`, if any, was start. */
  predicate RunningAfter(es: seq<Event>)
    decreases |es|
  {
    es != [] &&
    match es[|es| - 1]
    case Start => true
    case Stop => false
    case Fire => RunningAfter(es[..|es| - 1])
  }

  function Starts(es: seq<Event>): nat
    decreases |es|
  {
    if es == [] then 0 else Starts(es[..|es| - 1]) + if es[|es| - 1] == Start then 1 else 0
  }

  /** Firings while the generator runs, or while it does not. */
  function Firings(es: seq<Event>, running: bool): nat
    decreases |es|
  {
    if es == [] then 0
    else Firings(es[..|es| - 1], running)
         + if es[|es| - 1] == Fire && RunningAfter(es[..|es| - 1]) == running then 1 else 0
  }

  /** Over every interleaving: each start adds a chain of timers, a chain ends only by firing while the
      generator is stopped, and every start and every firing of a running generator emits k packets. */
  lemma {:induction false} TimerChains(es: seq<Event>, k: nat)
    requires Exec(es, k).Some?
    ensures var g := Exec(es, k).value;
            && g.run == RunningAfter(es)
            && g.pending == Starts(es) - Firings(es, false)
            && g.packets == k * (Starts(es) + Firings(es, true))
    decreases |es|
  {
    if es != [] {
      var before := es[..|es| - 1];
      TimerChains(before, k);
      var n := Starts(before) + Firings(before, true);
      assert k * (n + 1) == k * n + k;
    }
  }

  /** After a stop, and until a start, nothing is emitted and every firing removes a pending timer. */
  lemma {:induction false} StoppedDrains(es: seq<Event>, more: seq<Event>, k: nat)
    requires Exec(es + [Stop] + more, k).Some? && Starts(more) == 0
    ensures Exec(es, k).Some?
    ensures var g, r := Exec(es, k).value, Exec(es + [Stop] + more, k).value;
            !r.run && r.packets == g.packets && r.pending == g.pending - multiset(more)[Fire]
    decreases |more|
  {
    var all := es + [Stop] + more;
    if more == [] {
      assert all[..|all| - 1] == es && all[|all| - 1] == Stop;
    } else {
      var before := more[..|more| - 1];
      assert all[..|all| - 1] == es + [Stop] + before && all[|all| - 1] == more[|more| - 1];
      StoppedDrains(es, before, k);
      assert more == before + [more[|more| - 1]];
    }
  }

  /** Ten ticks of each pending timer chain: c chains emit between c times the rate and less than c
      times the rate plus ten packets. */
  lemma {:induction false} TenTicksOfEachChain(es: seq<Event>, rate: nat, size: nat)
    requires size > 0 && Exec(es, PerTick(rate, size)).Some? && RunningAfter(es)
    ensures var k := PerTick(rate, size);
            var c := Exec(es, k).value.pending;
            var ticks := seq(10 * c, i => Fire);
            && c > 0 && Exec(es + ticks, k).Some?
            && var bytes := (Exec(es + ticks, k).value.packets - Exec(es, k).value.packets) * size;
               c * rate <= bytes < c * (rate + 10 * size)
  {
    TenTicksReachTheRate(rate, size);
    var k := PerTick(rate, size);
    TimerChains(es, k);
    RunningHasChain(es, k);
    var c := Exec(es, k).value.pending;
    Ticks(es, k, 10 * c);
    ChainBytes(c, k, rate, size);
  }

  lemma ChainBytes(c: nat, k: int, rate: nat, size: nat)
    requires c > 0 && rate <= 10 * k * size < rate + 10 * size
    ensures c * rate <= 10 * c * k * size < c * (rate + 10 * size)
  {
  }

  /** The rate is kept as it should be, at least reached and exceeded by less than ten packets, by the
      bytes that ten ticks of each of `c` chains emit. */
  predicate KeepsRate(rate: nat, size: nat, bytes: int)
  {
    rate <= bytes < rate + 10 * size
  }

  lemma ProductAtLeast(c: nat, x: int)
    requires c >= 2 && x >= 0
    ensures c * x >= 2 * x
  {
  }

  /** With c > 0 chains the rate is kept exactly if there is one chain, or nothing is to be emitted. */
  lemma OneChainExactly(rate: nat, size: nat, c: nat)
    requires size > 0 && c > 0
    ensures KeepsRate(rate, size, c * (10 * PerTick(rate, size) * size)) <==> c == 1 || rate == 0
  {
    var k := PerTick(rate, size);
    var x := 10 * k * size;
    TenTicksReachTheRate(rate, size);
    if rate == 0 {
      assert rate <= 10 * 0 * size;
      assert k == 0 && x == 0;
    } else if c >= 2 {
      NonzeroTick(rate, size);
      ProductAtLeast(c, x);
    }
  }

  lemma NonzeroTick(rate: nat, size: nat)
    requires size > 0 && rate > 0
    ensures 10 * PerTick(rate, size) * size >= 10 * size
  {
    var k := PerTick(rate, size);
    TenTicksReachTheRate(rate, size);
    if k <= 0 {
      Times(10 * k, 0, size);
    } else {
      Times(10, 10 * k, size);
    }
  }

  /** For every run that ends running: ten ticks of every pending chain keep the rate if and only if the
      starts are one more than the firings seen while stopped, or nothing is to be emitted. */
  lemma {:induction false} RateKeptExactly(es: seq<Event>, rate: nat, size: nat)
    requires size > 0 && Exec(es, PerTick(rate, size)).Some? && RunningAfter(es)
    ensures var k := PerTick(rate, size);
            var ticks := seq(10 * Exec(es, k).value.pending, i => Fire);
            && Exec(es + ticks, k).Some?
            && (KeepsRate(rate, size, (Exec(es + ticks, k).value.packets - Exec(es, k).value.packets) * size) <==>
                Starts(es) == 1 + Firings(es, false) || rate == 0)
  {
    var k := PerTick(rate, size);
    TenTicksReachTheRate(rate, size);
    TimerChains(es, k);
    RunningHasChain(es, k);
    var c := Exec(es, k).value.pending;
    Ticks(es, k, 10 * c);
    ChainProduct(c, k, size);
    OneChainExactly(rate, size, c);
  }

  lemma ChainProduct(c: nat, k: int, size: nat)
    ensures 10 * c * k * size == c * (10 * k * size)
  {
  }

  /** A run at which it fails: a stop and a start within one tick leave two chains. */
  lemma {:induction false} RestartDoublesTheRate(rate: nat, size: nat)
    requires size > 0 && rate > 0
    ensures var k, es := PerTick(rate, size), [Start, Stop, Start];
            var ticks := seq(20, i => Fire);
            && Exec(es, k).Some? && Exec(es, k).value.pending == 2
            && Exec(es + ticks, k).Some?
            && var bytes := (Exec(es + ticks, k).value.packets - Exec(es, k).value.packets) * size;
               2 * rate <= bytes && !KeepsRate(rate, size, bytes)
  {
    var k := PerTick(rate, size);
    var a, b, es := [Start], [Start, Stop], [Start, Stop, Start];
    assert a[..0] == [] && b[..1] == a && es[..2] == b;
    assert Exec(a, k).Some? && Exec(b, k).Some? && Exec(es, k).Some?;
    RateKeptExactly(es, rate, size);
    TenTicksOfEachChain(es, rate, size);
    TimerChains(es, k);
    assert Starts(b) == 1 && Starts(es) == 2 && Firings(b, false) == 0 && Firings(es, false) == 0;
  }

  lemma {:induction false} RunningHasChain(es: seq<Event>, k: nat)
    requires Exec(es, k).Some? && RunningAfter(es)
    ensures Exec(es, k).value.pending > 0
    decreases |es|
  {
    TimerChains(es, k);
    TimerChains(es[..|es| - 1], k);
  }

  lemma {:induction false} Ticks(es: seq<Event>, k: nat, n: nat)
    requires Exec(es, k).Some? && Exec(es, k).value.run && Exec(es, k).value.pending > 0
    ensures var r := Exec(es + seq(n, i => Fire), k);
            && r.Some? && r.value.run && r.value.pending == Exec(es, k).value.pending
            && r.value.packets == Exec(es, k).value.packets + n * k
    decreases n
  {
    var all := es + seq(n, i => Fire);
    if n == 0 {
      assert all == es;
    } else {
      assert all[..|all| - 1] == es + seq(n - 1, i => Fire) && all[|all| - 1] == Fire;
      Ticks(es, k, n - 1);
      assert n * k == (n - 1) * k + k;
    }
  }
}
