/**
 * lgtv/api.go: client options, the keepalive period derived from them, and
 * the error values a caller can see.
 */
module Api {

  const MinInt64: int := -0x8000_0000_0000_0000
  const MaxInt64: int := 0x7FFF_FFFF_FFFF_FFFF
  const TwoTo64: int := 0x1_0000_0000_0000_0000

  type Int64 = x: int | MinInt64 <= x <= MaxInt64

  /** A Go `time.Duration`: a signed 64-bit count of nanoseconds. */
  type Duration = Int64

  const Second: Duration := 1_000_000_000

  /** Go's int64 arithmetic wraps around modulo 2^64. */
  function Wrap64(x: int): (r: Int64)
    ensures MinInt64 <= x <= MaxInt64 ==> r == x
    ensures (x - r) % TwoTo64 == 0
  {
    (x - MinInt64) % TwoTo64 + MinInt64
  }

  /** Go's integer division, which truncates toward zero. */
  function Quo(a: int, b: int): (q: int)
    requires b > 0
    ensures a >= 0 ==> 0 <= q * b <= a < q * b + b
    ensures a < 0 ==> q * b - b < a <= q * b <= 0
  {
    var m := if a >= 0 then a else -a;
    DivBounds(m, b);
    var d := m / b;
    assert (-d) * b == -(d * b);
    if a >= 0 then d else -d
  }

  /** Euclidean division of a non-negative number: the quotient times the divisor is at most it, by less than the divisor. */
  lemma DivBounds(m: int, b: int)
    requires m >= 0 && b > 0
    ensures 0 <= (m / b) * b <= m < (m / b) * b + b
  {
    var d := m / b;
    assert m == d * b + m % b;
  }

  datatype Options = Options(pongTimeout: Duration)

  /** The options every entry point uses: a 10 s liveness timeout. */
  const DefaultOptions: Options := Options(10 * Second)

  /**
   * The keepalive ping period, nine tenths of the pong timeout, computed as
   * the source does it: the product by 9 is an int64 product and may wrap.
   */
  function PingPeriod(o: Options): (p: Duration)
    ensures MinInt64 <= o.pongTimeout * 9 <= MaxInt64 ==> p == Quo(o.pongTimeout * 9, 10)
  {
    Quo(Wrap64(o.pongTimeout * 9), 10)
  }

  /**
   * Nine tenths of the pong timeout, computed without an intermediate value
   * larger than the timeout itself.
   */
  function SafePingPeriod(o: Options): (p: Duration)
    ensures p == Quo(o.pongTimeout * 9, 10)
  {
    var p := o.pongTimeout;
    var q := Quo(p, 10);
    q * 9 + Quo((p - q * 10) * 9, 10)
  }

  /** Errors a call on the client can return. */
  datatype Error =
    | TVError(message: string)   // the TV answered with a message of type "error"
    | DeadlineExceeded           // the caller's context expired first
    | DecodeFailure              // the payload did not decode into the expected record
    | NotConnected               // the connection is gone
  {
    /** TVError.Error(): the message the TV sent. */
    function Text(): (s: string)
      ensures TVError? ==> s == message
    {
      match this
      case TVError(m) => m
      case DeadlineExceeded => "context deadline exceeded"
      case DecodeFailure => "could not decode payload"
      case NotConnected => "not connected to TV"
    }
  }

  /** Within the range where 9 x PongTimeout fits in an int64, the period is exact. */
  lemma PingPeriodExact(o: Options)
    requires 0 <= o.pongTimeout <= MaxInt64 / 9
    ensures PingPeriod(o) == (o.pongTimeout * 9) / 10
    ensures 0 <= PingPeriod(o)
    ensures o.pongTimeout >= 1 ==> PingPeriod(o) < o.pongTimeout
  {
  }

  /** The period grows with the timeout while the product does not wrap. */
  lemma PingPeriodMonotone(o: Options, o': Options)
    requires 0 <= o.pongTimeout <= o'.pongTimeout <= MaxInt64 / 9
    ensures PingPeriod(o) <= PingPeriod(o')
  {
  }

  /** With the default options the client pings every 9 s. */
  lemma DefaultPingPeriod()
    ensures DefaultOptions.pongTimeout == 10 * Second
    ensures PingPeriod(DefaultOptions) == 9 * Second
  {
  }

  /**
   * A timeout of 1.1e18 ns (about 35 years) makes 9 x PongTimeout wrap, and
   * the period comes out negative instead of just below the timeout.
   */
  lemma PingPeriodOverflows()
    ensures PingPeriod(Options(1_100_000_000_000_000_000)) == -854_674_407_370_955_161
    ensures PingPeriod(Options(1_100_000_000_000_000_000)) < 0
  {
  }

  /**
   * Whatever the wrap does to its value, the period as written stays below any
   * positive timeout: the comment's requirement holds, and only the 9/10 fails.
   */
  lemma PingPeriodBelow(o: Options)
    requires o.pongTimeout >= 1
    ensures PingPeriod(o) < o.pongTimeout
  {
    var t := o.pongTimeout;
    if t <= MaxInt64 / 9 {
      PingPeriodExact(o);
    } else {
      // any wrapped product is an int64, so a tenth of it is below MaxInt64 / 9
      var q := Quo(Wrap64(t * 9), 10);
      assert q * 10 <= MaxInt64;
    }
  }

  /**
   * Past MaxInt64/9 the wrapped period need not be negative: a 2.1e18 ns
   * timeout (about 66 years) gives a positive period of about 1.4 years, far
   * from nine tenths of it.
   */
  lemma PingPeriodWrapsPositive()
    ensures PingPeriod(Options(2_100_000_000_000_000_000)) == 45_325_592_629_044_838
    ensures 0 < PingPeriod(Options(2_100_000_000_000_000_000)) < SafePingPeriod(Options(2_100_000_000_000_000_000)) / 40
  {
  }

  /**
   * The corrected period is nine tenths of the timeout, truncated toward zero,
   * for every int64 timeout: below the timeout and non-negative for a positive
   * one, positive from a 2 ns timeout on (a 1 ns timeout still gives 0), and
   * equal to the source's value wherever the source does not wrap.
   */
  lemma SafePingPeriodExact(o: Options)
    ensures SafePingPeriod(o) == Quo(o.pongTimeout * 9, 10)
    ensures o.pongTimeout >= 1 ==> 0 <= SafePingPeriod(o) < o.pongTimeout
    ensures o.pongTimeout >= 2 ==> SafePingPeriod(o) >= 1
    ensures o.pongTimeout == 1 ==> SafePingPeriod(o) == 0
    ensures MinInt64 <= o.pongTimeout * 9 <= MaxInt64 ==> SafePingPeriod(o) == PingPeriod(o)
  {
  }
}
