/** Shared vocabulary of the LED controller model: fixed-width integers,
    `millis()` arithmetic, C's truncating division, and an Option type. */
module Common {

  const TwoTo32: int := 0x1_0000_0000

  /** `uint32_t` / `unsigned long` on the ESP32 targets: millisecond timestamps. */
  type U32 = x: int | 0 <= x < 0x1_0000_0000

  /** `uint8_t` */
  type U8 = x: int | 0 <= x < 256

  /** `int8_t` */
  type Int8 = x: int | -128 <= x < 128

  /** `int32_t` */
  type I32 = x: int | -0x8000_0000 <= x < 0x8000_0000

  /** `int16_t` */
  type I16 = x: int | -0x8000 <= x < 0x8000

  datatype Option<+T> = None | Some(value: T)

  /** Unsigned subtraction `now - since` on 32-bit timestamps: the time since
      `since`, correct across one wrap-around of `millis()`. */
  function Elapsed(now: U32, since: U32): (d: U32)
    ensures (since + d) % TwoTo32 == now
    ensures since <= now ==> d == now - since
    ensures now < since ==> d == TwoTo32 - (since - now)
  {
    (now - since) % TwoTo32
  }

  /** Nothing has elapsed since the present instant. */
  lemma ElapsedSelf(t: U32)
    ensures Elapsed(t, t) == 0
  {
  }

  /** C's `/` on integers, which truncates toward zero. */
  function CDiv(a: int, b: int): (q: int)
    requires b != 0
    ensures a >= 0 && b > 0 ==> q == a / b
    ensures (q * b <= a && a >= 0) || (q * b >= a && a <= 0)
    ensures 0 <= (a - q * b) * (if a >= 0 then 1 else -1) < (if b > 0 then b else -b)
  {
    if a >= 0 then (if b > 0 then a / b else -(a / -b))
    else (if b > 0 then -((-a) / b) else (-a) / (-b))
  }

  /** C's `%` on integers: the remainder of `CDiv`, carrying the sign of `a`. */
  function CRem(a: int, b: int): (r: int)
    requires b != 0
    ensures a == CDiv(a, b) * b + r
    ensures a >= 0 ==> 0 <= r < (if b > 0 then b else -b)
    ensures a < 0 ==> -(if b > 0 then b else -b) < r <= 0
  {
    a - CDiv(a, b) * b
  }

  /** Two's-complement reinterpretation of an integer as `int32_t`: what a
      32-bit `long` holds after an overflowing multiplication on the target. */
  function WrapI32(x: int): (r: I32)
    ensures (r - x) % TwoTo32 == 0
    ensures -0x8000_0000 <= x < 0x8000_0000 ==> r == x
  {
    (x + 0x8000_0000) % TwoTo32 - 0x8000_0000
  }

  /** Conversion of an integer to `uint32_t` (reduction modulo 2^32). */
  function ToU32(x: int): (r: U32)
    ensures (r - x) % TwoTo32 == 0
    ensures 0 <= x < TwoTo32 ==> r == x
  {
    x % TwoTo32
  }

  /** The pulse floor every audio variant enforces on exit: a pulse below
      1.0 is raised to 1.0, any other is kept. */
  function EnforceFloor(pulse: real): (r: real)
    ensures r >= 1.0 && r >= pulse
    ensures r == pulse || r == 1.0
  {
    if pulse < 1.0 then 1.0 else pulse
  }
}
