/** From the units of sleep, usleep and nanosleep to the milliseconds of their timers. */
module Durations {

  const U32: int := 0x1_0000_0000
  const U64: int := 0x1_0000_0000_0000_0000

  /** seconds * 1000 on unsigned int. */
  function SleepMs(seconds: nat): nat {
    seconds * 1000 % U32
  }

  /** usec / 1000. */
  function UsleepMs(usec: nat): nat {
    usec / 1000
  }

  /** The milliseconds computed in 64 bits, narrowed to int, and widened to the uint64_t of addTimer. */
  function NanosleepMs(seconds: nat, nanos: nat): nat {
    var low := (seconds * 1000 + nanos / 1000 / 1000) % U32;
    if low < U32 / 2 then low else low + U64 - U32
  }

  /** sleep waits as long as asked up to 4294967 seconds, and less beyond, by a multiple of 2^32
      milliseconds. */
  lemma SleepIsFull(seconds: nat)
    ensures SleepMs(seconds) < 0x1_0000_0000 && (seconds * 1000 - SleepMs(seconds)) % 0x1_0000_0000 == 0
    ensures SleepMs(seconds) >= seconds * 1000 <==> seconds <= 4294967
    ensures seconds <= 4294967 ==> SleepMs(seconds) == seconds * 1000
  {
  }

  /** usleep drops what is less than a millisecond. */
  lemma UsleepIsFull(usec: nat)
    ensures UsleepMs(usec) * 1000 >= usec <==> usec % 1000 == 0
    ensures UsleepMs(usec) * 1000 <= usec < (UsleepMs(usec) + 1) * 1000
  {
  }

  /** nanosleep, for fewer seconds than would overflow a 64-bit count of milliseconds, waits as long as
      asked exactly for whole milliseconds that fit in an int, or when the narrowed count is negative
      and so becomes enormous. */
  lemma NanosleepIsFull(seconds: nat, nanos: nat)
    requires nanos < 1_000_000_000 && seconds < 9_000_000_000_000_000
    ensures NanosleepMs(seconds, nanos) * 1_000_000 >= seconds * 1_000_000_000 + nanos <==>
            var ms := seconds * 1000 + nanos / 1_000_000;
            (ms < U32 / 2 && nanos % 1_000_000 == 0) || ms % U32 >= U32 / 2
    ensures var given := NanosleepMs(seconds, nanos);
            && (given - (seconds * 1000 + nanos / 1_000_000)) % U32 == 0
            && (given < U32 / 2 || U64 - U32 / 2 <= given < U64)
    ensures seconds * 1000 + nanos / 1_000_000 < U32 / 2 ==>
              var ns := seconds * 1_000_000_000 + nanos;
              NanosleepMs(seconds, nanos) * 1_000_000 <= ns < (NanosleepMs(seconds, nanos) + 1) * 1_000_000
  {
    var ms := seconds * 1000 + nanos / 1_000_000;
    assert nanos / 1000 / 1000 == nanos / 1_000_000;
    assert seconds * 1_000_000_000 + nanos == ms * 1_000_000 + nanos % 1_000_000;
    assert ms < U64 - U32;
  }

  const MAX_TIMEOUT: nat := 3000

  /** (int) of a 64-bit number of milliseconds. */
  function Narrowed(ms: nat): int {
    if ms % U32 < U32 / 2 then ms % U32 else ms % U32 - U32
  }

  /** The timeout an idle thread gives epoll_wait when the first deadline is `next` away; a negative
      one never ends. */
  function IdleWait(next: nat): int {
    Narrowed(if Narrowed(next) > MAX_TIMEOUT then MAX_TIMEOUT else next)
  }

  /** It lies within the cap exactly if the narrowing does not make the time to the deadline
      negative, and is the time to the deadline, capped, exactly if besides the time is not small
      only after the narrowing. Otherwise the idle thread may sleep past the cap, for ever. */
  lemma IdleWaitIs(next: nat)
    ensures 0 <= IdleWait(next) <= MAX_TIMEOUT <==> next % U32 < U32 / 2
    ensures IdleWait(next) < 0 <==> next % U32 >= U32 / 2
    ensures IdleWait(next) == (if next > MAX_TIMEOUT then MAX_TIMEOUT else next) <==>
            next % U32 < U32 / 2 && (next > MAX_TIMEOUT ==> next % U32 >= MAX_TIMEOUT)
  {
  }
}
