/** The 16-bit message timer: when it reaches zero, and how long a message lives unconfirmed. */
module Timer {
  import opened Types
  import opened Session

  const CYCLE := 0x1_0000

  /** The inverse of the poll interval: 75 * 51555 == 59 * 2^16 + 1. */
  const INVERSE := 51555

  /** Number of idle ticks after which a timer at `t` stands at zero. */
  function TicksToZero(t: nat): (k: nat)
    ensures 1 <= k <= CYCLE
  {
    var r := t * INVERSE % CYCLE;
    if r == 0 then CYCLE else r
  }

  /** The timer after `k` idle ticks. */
  function AgeBy(t: nat, k: nat): nat
    decreases k
  {
    if k == 0 then t else AgeBy(Age(t), k - 1)
  }

  lemma AddCycles(x: int, k: int)
    ensures (x + k * CYCLE) % CYCLE == x % CYCLE
  {
    var a, b := x / CYCLE, x % CYCLE;
    assert x + k * CYCLE == (a + k) * CYCLE + b;
  }

  /** One tick brings the timer one tick nearer to zero, and the last one takes it there. */
  lemma OneTick(t: nat)
    ensures Age(t) == 0 <==> TicksToZero(t) == 1
    ensures Age(t) != 0 ==> TicksToZero(Age(t)) == TicksToZero(t) - 1
  {
    var u, b := Age(t), (t - 75) / CYCLE;
    assert u == t - 75 - b * CYCLE;
    assert u * INVERSE == (t * INVERSE - 1) + (-b * INVERSE - 59) * CYCLE;
    AddCycles(t * INVERSE - 1, -b * INVERSE - 59);
    assert u * INVERSE % CYCLE == (t * INVERSE - 1) % CYCLE;
    Predecessor(t * INVERSE);
    InverseIsOneToOne(u);
  }

  lemma Predecessor(x: nat)
    ensures (x - 1) % CYCLE == if x % CYCLE == 0 then CYCLE - 1 else x % CYCLE - 1
  {
    var a, b := x / CYCLE, x % CYCLE;
    assert x - 1 == a * CYCLE + (b - 1);
    AddCycles(b - 1, a);
  }

  lemma InverseIsOneToOne(u: nat)
    requires u < CYCLE
    ensures u * INVERSE % CYCLE == 0 <==> u == 0
  {
    var q, r := u * INVERSE / CYCLE, u * INVERSE % CYCLE;
    if r == 0 {
      assert u * INVERSE == q * CYCLE;
      assert u == (75 * q - 59 * u) * CYCLE;
    }
  }

  /** The timer first stands at zero after exactly `TicksToZero` ticks. */
  lemma {:induction false} FirstZero(t: nat, k: nat)
    requires 1 <= k <= TicksToZero(t)
    ensures AgeBy(t, k) == 0 <==> k == TicksToZero(t)
    decreases k
  {
    OneTick(t);
    if k > 1 { FirstZero(Age(t), k - 1); }
  }

  /** The ticks waited, times their length, hit the timer value modulo 2^16. */
  lemma TicksSolve(t: nat)
    ensures (75 * TicksToZero(t) - t) % CYCLE == 0
  {
    var q, r := t * INVERSE / CYCLE, t * INVERSE % CYCLE;
    var k := TicksToZero(t);
    var c := if r == 0 then 1 else 0;
    assert k == t * INVERSE - q * CYCLE + c * CYCLE;
    assert 75 * k - t == (59 * t - 75 * q + 75 * c) * CYCLE;
    AddCycles(0, 59 * t - 75 * q + 75 * c);
  }

  /**
   A message waits as long as configured exactly when the timeout is a positive multiple of the
   poll interval; any other timeout overshoots by at least a full turn of the 16-bit timer.
   */
  lemma Punctual(t: nat)
    requires t < CYCLE
    ensures 75 * TicksToZero(t) == t <==> t > 0 && t % 75 == 0
    ensures 75 * TicksToZero(t) != t ==> 75 * TicksToZero(t) >= t + CYCLE
  {
    TicksSolve(t);
    var k := TicksToZero(t);
    var j := (75 * k - t) / CYCLE;
    assert 75 * k - t == j * CYCLE;
    if t > 0 && t % 75 == 0 {
      var n := t / 75;
      assert t * INVERSE == n + (59 * n) * CYCLE;
      AddCycles(n, 59 * n);
    }
  }

  /** With the default of 250 ms the first retransmission comes after 43694 ticks, some 55 minutes. */
  lemma DefaultTimeout()
    ensures TicksToZero(250) == 43694 && 75 * 43694 == 3277050
  {
  }

  // ----- The life of an unconfirmed datagram -----

  /** Idle ticks until the datagram has used up its retransmissions. */
  function Life(cfg: Config, p: Pending): nat
    requires p.retry <= cfg.retries
  {
    (cfg.retries - p.retry) * TicksToZero(cfg.timeout) + TicksToZero(p.timer)
  }

  /** No datagram lives longer than this. */
  function LifeBound(cfg: Config): nat { (cfg.retries + 1) * CYCLE }

  lemma {:induction false} TimesBounded(a: nat, z: nat)
    requires z <= CYCLE
    ensures 0 <= a * z <= a * CYCLE
  {
    if a > 0 {
      TimesBounded(a - 1, z);
      assert a * z == (a - 1) * z + z;
    }
  }

  lemma LifeBounded(cfg: Config, p: Pending)
    requires p.retry <= cfg.retries
    ensures 1 <= Life(cfg, p) <= LifeBound(cfg)
  {
    hide TicksToZero;
    TimesBounded(cfg.retries - p.retry, TicksToZero(cfg.timeout));
  }

  lemma OneLess(a: nat, z: nat)
    requires a > 0
    ensures a * z == (a - 1) * z + z && a * z >= z
  {
    assert (a - 1) * z >= 0;
  }

  /** Every tick takes one tick off the life of a datagram; it is spent in its last one. */
  lemma OneTickOlder(cfg: Config, p: Pending)
    requires p.retry <= cfg.retries
    ensures Spent(cfg, p) <==> Life(cfg, p) == 1
    ensures !Spent(cfg, p) ==> Aged(cfg, p).retry <= cfg.retries && Life(cfg, Aged(cfg, p)) == Life(cfg, p) - 1
  {
    hide TicksToZero, Age;
    OneTick(p.timer);
    var a, z := cfg.retries - p.retry, TicksToZero(cfg.timeout);
    if a > 0 { OneLess(a, z); }
  }
}
