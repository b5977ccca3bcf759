/**
  Vocabulary shared by both versions of the alarm: the 8-bit characters and
  bytes of the AVR target, the 32-bit millisecond clock, 4-character code
  buffers, the short-circuit comparison of two codes and the lockout
  arithmetic.
 */
module Common {

  /** A C `char` of the target: one 8-bit code unit. */
  type Octet = c: char | c as int < 256

  /** A C `byte`. */
  type Byte = b: int | 0 <= b < 256

  /** An `unsigned long`, the type of `millis()` and of every stored stamp. */
  type U32 = n: int | 0 <= n < 0x1_0000_0000

  /** A 4-character buffer: the password, or one of the entry buffers. */
  type Code = s: seq<Octet> | |s| == 4 witness "\0\0\0\0"

  /** A buffer after `memset(buf, 0, 4)`. */
  const Blank: Code := "\0\0\0\0"

  /** Failed attempts that end an attempt series (MAX_INTENTOS). */
  const MAX_INTENTOS: nat := 3

  /** Length of both lockouts, in milliseconds. */
  const LOCK_MS: nat := 30000

  datatype Option<T> = None | Some(value: T)

  /** `b++` on a byte variable. */
  function Inc8(b: Byte): (r: Byte)
    ensures b < 255 ==> r == b + 1
    ensures b == 255 ==> r == 0
  {
    (b + 1) % 256
  }

  /**
    `millis() - since` in unsigned 32-bit arithmetic: the true number of
    milliseconds from `since` to `now`, also across one wrap-around of the
    counter.
   */
  function Elapsed(now: U32, since: U32): (e: U32)
    ensures since <= now ==> e == now - since
    ensures now < since ==> e + since == now + 0x1_0000_0000
  {
    (now - since) % 0x1_0000_0000
  }

  /** `buf[i] = c`; a write at an index past the buffer is not modelled. */
  function Put(buf: Code, i: nat, c: Octet): (r: Code)
    ensures i < 4 ==> r[i] == c
    ensures forall j :: 0 <= j < 4 && j != i ==> r[j] == buf[j]
  {
    if i < 4 then buf[i := c] else buf
  }

  /**
    The comparison loop of the source: positions are compared from `i`
    upwards and the first difference stops it.
   */
  function MatchFrom(a: Code, b: Code, i: nat): (r: bool)
    requires i <= 4
    ensures r <==> forall j :: i <= j < 4 ==> a[j] == b[j]
    decreases 4 - i
  {
    if i == 4 then true
    else if a[i] != b[i] then false
    else MatchFrom(a, b, i + 1)
  }

  /** The comparison loop run from position 0: true exactly for equal codes. */
  function Matches(a: Code, b: Code): (r: bool)
    ensures r <==> a == b
  {
    assert (forall j :: 0 <= j < 4 ==> a[j] == b[j]) ==> a == b;
    MatchFrom(a, b, 0)
  }

  /**
    Whole seconds left of a lockout of `duration` ms after `e` ms, as the
    countdown shows them: the remaining time rounded down.
   */
  function RemainingSeconds(e: nat, duration: nat): (r: nat)
    requires e < duration
    ensures r * 1000 <= duration - e < r * 1000 + 1000
    ensures r <= duration / 1000
  {
    (duration - e) / 1000
  }
}
