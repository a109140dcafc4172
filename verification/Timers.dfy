/** Timer B and Timer W, advanced by every tick of the sub clock. */
module Timers {
  import opened Words
  import opened H8

  const VECTOR_TIMER_W: u16 := 0x3a4a

  /** Timer B: running, reload value, counter, the two register bits that enable it, and its request flag. */
  datatype TimerB = TimerB(on: bool, tlb: u8, tcb: u8, counting: bool, clock: bool, flag: bool)

  /**
   Timer W: running, counter, compare register, the two register bits that enable it, whether a match clears
   the counter, its match flag, and whether a match interrupts.
   */
  datatype TimerW = TimerW(on: bool, tcnt: u16, gra: u16, counting: bool, clock: bool,
                           clearOnMatch: bool, flag: bool, interrupts: bool)

  /** Both timers and the number of sub clock ticks so far. */
  datatype State = State(sub: nat, b: TimerB, w: TimerW)

  /** Timer B counts every 256th tick; a timer starts and stops one tick after its registers say so. */
  function TickB(t: TimerB, sub: nat): TimerB {
    var counts, next := t.on && sub % 256 == 0, Low8(t.tcb + 1);
    t.(flag := t.flag || (counts && next == 0),
       tcb := if !counts then t.tcb else if next == 0 then t.tlb else next,
       on := t.clock && t.counting)
  }

  /** The counter that Timer W compares, before a match clears it. */
  function Counted(t: TimerW): u16 { if t.counting then Low16(t.tcnt + 1) else t.tcnt }

  predicate Matches(t: TimerW) { t.on && Counted(t) == t.gra }

  function TickW(t: TimerW): TimerW {
    t.(tcnt := if !t.on then t.tcnt else if Matches(t) && t.clearOnMatch then 0 else Counted(t),
       flag := t.flag || Matches(t),
       on := t.clock && t.counting)
  }

  /** One tick of the sub clock. */
  function Tick(t: State): State { State(t.sub + 1, TickB(t.b, t.sub + 1), TickW(t.w)) }

  /** A match interrupts at once when interrupts are not masked. */
  function MatchInterrupt(t: TimerW, c: Core): Core {
    if Matches(t) && t.interrupts && !c.flags.I then Enter(c, VECTOR_TIMER_W) else c
  }

  // ---------------------------------------------------------------- counters that reload

  /** A counter below `limit`, and how often it reached the limit and was reloaded, after `n` counts. */
  function Reloading(c: int, limit: int, reload: int, n: nat): (r: (int, nat))
    requires c < limit && reload < limit
    ensures r.0 < limit
  {
    if n == 0 then (c, 0)
    else
      var (value, hits) := Reloading(c, limit, reload, n - 1);
      if value + 1 == limit then (reload, hits + 1) else (value + 1, hits)
  }

  lemma Decompose(x: int, p: int)
    requires p > 0
    ensures x / p * p + x % p == x && 0 <= x % p < p
  {
  }

  lemma Scaled(a: int, b: int, p: int)
    requires a <= b && p > 0
    ensures a * p <= b * p
  {
  }

  lemma SameQuotient(x: int, p: int, a: int, b: int)
    requires p > 0 && a * p <= x < a * p + p && b * p <= x < b * p + p
    ensures a == b
  {
    if a < b {
      Scaled(a + 1, b, p);
    }
    if b < a {
      Scaled(b + 1, a, p);
    }
  }

  lemma DivisionIsUnique(x: int, p: int, q: int, r: int)
    requires p > 0 && 0 <= r < p && x == q * p + r
    ensures x / p == q && x % p == r
  {
    Decompose(x, p);
    SameQuotient(x, p, q, x / p);
  }

  /** Quotient and remainder by repeated subtraction. */
  function Quotient(x: nat, p: int): nat
    requires p > 0
  {
    if x < p then 0 else 1 + Quotient(x - p, p)
  }

  function Remainder(x: nat, p: int): (r: nat)
    requires p > 0
    ensures r < p
  {
    if x < p then x else Remainder(x - p, p)
  }

  lemma {:induction false} QuotientIsDivision(x: nat, p: int)
    requires p > 0
    ensures Quotient(x, p) == x / p && Remainder(x, p) == x % p
    decreases x
  {
    if x < p {
      DivisionIsUnique(x, p, 0, x);
    } else {
      QuotientIsDivision(x - p, p);
      Decompose(x - p, p);
      DivisionIsUnique(x, p, (x - p) / p + 1, (x - p) % p);
    }
  }

  /** Dividing the next number. */
  lemma {:induction false} DivideNext(m: nat, p: int)
    requires p > 0
    ensures Remainder(m, p) + 1 == p ==> Remainder(m + 1, p) == 0 && Quotient(m + 1, p) == Quotient(m, p) + 1
    ensures Remainder(m, p) + 1 != p ==>
              Remainder(m + 1, p) == Remainder(m, p) + 1 && Quotient(m + 1, p) == Quotient(m, p)
    decreases m
  {
    if m >= p {
      DivideNext(m - p, p);
    }
  }

  function Past(first: int, n: nat): nat { if n < first then 0 else n - first }

  /** Hits of a counter that reaches its limit after `first` counts and then every `period` counts. */
  function Hits(first: int, period: int, n: nat): nat
    requires period > 0
  {
    if n < first then 0 else 1 + Quotient(Past(first, n), period)
  }

  /** How far such a counter is past its latest reload. */
  function Phase(first: int, period: int, n: nat): nat
    requires period > 0
  {
    Remainder(Past(first, n), period)
  }

  /** A reloading counter runs straight to its limit and is periodic from then on. */
  lemma {:induction false} ReloadingClosedForm(c: int, limit: int, reload: int, first: int, period: int, n: nat)
    requires c < limit && reload < limit && first == limit - c && period == limit - reload
    ensures Reloading(c, limit, reload, n).0 == if n < first then c + n else reload + Phase(first, period, n)
    ensures Reloading(c, limit, reload, n).1 == Hits(first, period, n)
  {
    if n > 0 {
      ReloadingClosedForm(c, limit, reload, first, period, n - 1);
      if n > first {
        DivideNext(n - 1 - first, period);
      }
    }
  }

  lemma WrapBelow(x: int)
    ensures Low16(x - 0x1_0000) == Low16(x)
  {
  }

  // ---------------------------------------------------------------- Timer W

  /** Timer W is enabled and stays so. */
  predicate RunningW(t: TimerW) { t.on && t.clock && t.counting }

  function TicksW(t: TimerW, n: nat): TimerW {
    if n == 0 then t else TickW(TicksW(t, n - 1))
  }

  /** Compare matches among the first `n` ticks. */
  function MatchCount(t: TimerW, n: nat): nat {
    if n == 0 then 0 else MatchCount(t, n - 1) + if Matches(TicksW(t, n - 1)) then 1 else 0
  }

  /**
   The unwrapped counter: negative while the 16-bit counter has passed the compare value and must wrap
   before it can match.
   */
  function Unwrapped(t: TimerW): int { if t.tcnt < t.gra then t.tcnt else t.tcnt as int - 0x1_0000 }

  /** Where a match leaves the unwrapped counter. */
  function AfterMatch(t: TimerW): (r: int)
    ensures r < t.gra
  {
    if t.clearOnMatch && t.gra > 0 then 0 else t.gra as int - 0x1_0000
  }

  /** Counting the unwrapped counter is counting the wrapped one. */
  lemma UnwrappedCounts(value: int, gra: u16)
    requires gra as int - 0x1_0000 <= value < gra as int
    ensures Low16(Low16(value) + 1) == gra <==> value + 1 == gra as int
    ensures value + 1 != gra as int ==> Low16(Low16(value) + 1) == Low16(value + 1)
  {
  }

  /** One tick in terms of the unwrapped counter. */
  lemma TickWReloads(t: TimerW, value: int, hits: nat)
    requires RunningW(t) && t.gra as int - 0x1_0000 <= value < t.gra as int
    ensures var u := t.(tcnt := Low16(value), flag := t.flag || hits > 0);
            && (Matches(u) <==> value + 1 == t.gra as int)
            && TickW(u) == t.(tcnt := Low16(if Matches(u) then AfterMatch(t) else value + 1),
                              flag := t.flag || hits > 0 || Matches(u))
  {
    UnwrappedCounts(value, t.gra);
    WrapBelow(t.gra);
  }

  lemma {:induction false} TimerWReloads(t: TimerW, n: nat)
    requires RunningW(t)
    ensures var (value, hits) := Reloading(Unwrapped(t), t.gra, AfterMatch(t), n);
            && t.gra as int - 0x1_0000 <= value
            && TicksW(t, n) == t.(tcnt := Low16(value), flag := t.flag || hits > 0)
            && MatchCount(t, n) == hits
  {
    if n == 0 {
      WrapBelow(t.tcnt);
    } else {
      TimerWReloads(t, n - 1);
      var (value, hits) := Reloading(Unwrapped(t), t.gra, AfterMatch(t), n - 1);
      TickWReloads(t, value, hits);
    }
  }

  /** How many ticks Timer W needs to its first match: it wraps first if it starts at or above GRA. */
  function FirstMatch(t: TimerW): int {
    if t.tcnt < t.gra then t.gra as int - t.tcnt as int else 0x1_0000 - t.tcnt as int + t.gra as int
  }

  /** How far apart its later matches are. */
  function MatchPeriod(t: TimerW): (p: int)
    ensures p > 0
  {
    if t.clearOnMatch && t.gra > 0 then t.gra else 0x1_0000
  }

  /** Where Timer W's counter stands after `n` ticks, before it is cut to 16 bits. */
  function CounterAfter(t: TimerW, n: nat): int {
    if n < FirstMatch(t) then t.tcnt as int + n
    else (if t.clearOnMatch then 0 else t.gra) + Phase(FirstMatch(t), MatchPeriod(t), n)
  }

  lemma ReloadingIsCounter(t: TimerW, n: nat)
    ensures Low16(Reloading(Unwrapped(t), t.gra, AfterMatch(t), n).0) == Low16(CounterAfter(t, n))
  {
    ReloadingClosedForm(Unwrapped(t), t.gra, AfterMatch(t), FirstMatch(t), MatchPeriod(t), n);
    WrapBelow(CounterAfter(t, n));
  }

  /**
   Timer W in closed form, for every starting value, compare value and number of ticks: the counter wraps or
   runs to its first match, and is periodic from then on.
   */
  lemma TimerWClosedForm(t: TimerW, n: nat)
    requires RunningW(t)
    ensures TicksW(t, n) == t.(tcnt := Low16(CounterAfter(t, n)), flag := t.flag || n >= FirstMatch(t))
    ensures MatchCount(t, n) == Hits(FirstMatch(t), MatchPeriod(t), n)
  {
    TimerWReloads(t, n);
    ReloadingIsCounter(t, n);
    ReloadingClosedForm(Unwrapped(t), t.gra, AfterMatch(t), FirstMatch(t), MatchPeriod(t), n);
  }

  /** The usual setting: cleared on match, started below the compare value. */
  lemma TimerWCountsModuloGra(t: TimerW, n: nat)
    requires RunningW(t) && t.clearOnMatch && t.tcnt < t.gra
    ensures TicksW(t, n).tcnt as int == (t.tcnt as int + n) % t.gra as int
    ensures MatchCount(t, n) == (t.tcnt as int + n) / t.gra as int
  {
    TimerWClosedForm(t, n);
    ModuloFromFirst(t.tcnt, t.gra, n);
    SmallCounter(CounterAfter(t, n), t.gra);
  }

  lemma SmallCounter(x: int, gra: u16)
    requires 0 <= x < gra
    ensures Low16(x) == x
  {
  }

  lemma ModuloFromFirst(t0: nat, g: int, n: nat)
    requires t0 < g
    ensures (t0 + n) % g == if n < g - t0 then t0 + n else Phase(g - t0, g, n)
    ensures (t0 + n) / g == Hits(g - t0, g, n)
  {
    QuotientIsDivision(t0 + n, g);
  }

  // ---------------------------------------------------------------- Timer B

  predicate RunningB(t: TimerB) { t.on && t.clock && t.counting }

  function TicksB(t: TimerB, sub: nat, n: nat): TimerB {
    if n == 0 then t else TickB(TicksB(t, sub, n - 1), sub + n)
  }

  /** Times that Timer B counts in the `n` ticks after tick `sub`. */
  function CountsB(sub: nat, n: nat): nat {
    if n == 0 then 0 else CountsB(sub, n - 1) + if (sub + n) % 256 == 0 then 1 else 0
  }

  /** Times that it overflows in them. */
  function OverflowsB(t: TimerB, sub: nat, n: nat): nat {
    if n == 0 then 0
    else OverflowsB(t, sub, n - 1) + if (sub + n) % 256 == 0 && TicksB(t, sub, n - 1).tcb == 0xFF then 1 else 0
  }

  lemma {:induction false} CountsClosedForm(sub: nat, n: nat)
    ensures CountsB(sub, n) == (sub + n) / 256 - sub / 256
  {
    if n > 0 {
      CountsClosedForm(sub, n - 1);
      var x := sub + n;
      assert x / 256 == (x - 1) / 256 + if x % 256 == 0 then 1 else 0;
    }
  }

  /** One tick in terms of the reloading counter. */
  lemma TickBReloads(t: TimerB, sub: nat, value: int, hits: nat)
    requires RunningB(t) && 0 <= value < 256
    ensures var u, counts := t.(tcb := value, flag := t.flag || hits > 0), sub % 256 == 0;
            TickB(u, sub) == t.(tcb := if !counts then value else if value + 1 == 256 then t.tlb else value + 1,
                                flag := t.flag || hits > 0 || (counts && value + 1 == 256))
  {
  }

  lemma {:induction false} TimerBReloads(t: TimerB, sub: nat, n: nat)
    requires RunningB(t)
    ensures var (value, hits) := Reloading(t.tcb, 256, t.tlb, CountsB(sub, n));
            && 0 <= value
            && TicksB(t, sub, n) == t.(tcb := value, flag := t.flag || hits > 0)
            && OverflowsB(t, sub, n) == hits
  {
    if n > 0 {
      TimerBReloads(t, sub, n - 1);
      var (value, hits) := Reloading(t.tcb, 256, t.tlb, CountsB(sub, n - 1));
      TickBReloads(t, sub + n, value, hits);
    }
  }

  /** Timer B in closed form: it counts every 256th tick and overflows every 256 - TLB counts. */
  lemma TimerBClosedForm(t: TimerB, sub: nat, n: nat)
    requires RunningB(t)
    ensures var counts := CountsB(sub, n);
            var first, period := 256 - t.tcb as int, 256 - t.tlb as int;
            && counts == (sub + n) / 256 - sub / 256
            && TicksB(t, sub, n).tcb as int == (if counts < first then t.tcb as int + counts
                                                else t.tlb as int + Phase(first, period, counts))
            && TicksB(t, sub, n).flag == (t.flag || counts >= first)
            && OverflowsB(t, sub, n) == Hits(first, period, counts)
  {
    CountsClosedForm(sub, n);
    TimerBReloads(t, sub, n);
    ReloadingClosedForm(t.tcb, 256, t.tlb, 256 - t.tcb as int, 256 - t.tlb as int, CountsB(sub, n));
  }

  // ---------------------------------------------------------------- both

  function Ticks(t: State, n: nat): State {
    if n == 0 then t else Tick(Ticks(t, n - 1))
  }

  /** The two timers do not influence each other. */
  lemma {:induction false} TimersAreIndependent(t: State, n: nat)
    ensures Ticks(t, n) == State(t.sub + n, TicksB(t.b, t.sub, n), TicksW(t.w, n))
  {
    if n > 0 {
      TimersAreIndependent(t, n - 1);
    }
  }
}
