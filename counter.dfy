/** The progress counters of model.go and the channels the goroutines share, run one at a time. */
module Counters {
  import opened Base

  /** Counter: a uint64 that Add increases (atomically in Go), wrapping at 2^64; it starts at 0. */
  class Counter {
    var value: nat

    ghost predicate Valid()
      reads this
    {
      value < U64
    }

    /** The zero value of the struct. */
    constructor ()
      ensures Valid() && value == 0
    {
      value := 0;
    }

    /** Adds x, wrapping on uint64 overflow. */
    method Add(x: nat)
      requires Valid() && x < U64
      modifies this
      ensures Valid() && value == (old(value) + x) % U64
    {
      value := (value + x) % U64;
    }

    /** The running total; reading it changes nothing. */
    function Value(): nat
      reads this
    {
      value
    }
  }

  /** x reduced into the 64-bit range by repeated wrap-around. */
  function Wrap(x: nat): nat
  {
    if x < U64 then x else Wrap(x - U64)
  }

  /** Wrapping round the 64-bit range is taking the remainder modulo 2^64. */
  lemma {:induction false} WrapIsMod(x: nat)
    ensures Wrap(x) == x % U64
    decreases x
  {
    if x >= U64 {
      WrapIsMod(x - U64);
      ModMultiple(1, x - U64);
    }
  }

  function Sum(xs: seq<nat>): nat
  {
    if xs == [] then 0 else Sum(Init(xs)) + Last(xs)
  }

  /** The value after adding each of xs to `start`, one Add at a time. */
  function AfterAdds(start: nat, xs: seq<nat>): nat
  {
    if xs == [] then start else (AfterAdds(start, Init(xs)) + Last(xs)) % U64
  }

  lemma ModAdd(a: nat, b: nat)
    ensures (a % U64 + b) % U64 == (a + b) % U64
  {
    var q := a / U64;
    assert a == q * U64 + a % U64;
    assert a + b == q * U64 + (a % U64 + b);
    ModMultiple(q, a % U64 + b);
  }

  lemma ModMultiple(q: nat, c: nat)
    ensures (q * U64 + c) % U64 == c % U64
    decreases q
  {
    if q > 0 {
      assert q * U64 + c == (q - 1) * U64 + c + U64;
      ModMultiple(q - 1, c);
    }
  }

  /**
   * However the total is split into Adds, the counter ends at the start plus the sum of what
   * was added, modulo 2^64.
   */
  lemma {:induction false} AfterAddsIsSum(start: nat, xs: seq<nat>)
    requires start < U64
    ensures AfterAdds(start, xs) == (start + Sum(xs)) % U64
  {
    if xs == [] {
      assert start % U64 == start;
    } else {
      AfterAddsIsSum(start, Init(xs));
      ModAdd(start + Sum(Init(xs)), Last(xs));
    }
  }
}
