/** The end-to-end identifiers given to client requests (DiaProxy/source/ClientThread.cpp;
    the seed is limited in DiaProxy/source/DiaProxy.cpp). */
module EndToEndIds {
  import opened Octets

  const MAX_SEED: nat := 96
  const LAST_COUNT: nat := 7295
  const MAX_POSITION: nat := 4293      // the last client slot for which nothing overflows

  /** The sum, kept in 32 bits. */
  function Generate(position: nat, seed: nat, count: nat): (id: Word)
  {
    ((position + 1) * 1000000 + seed * 10000 + count) % 0x1_0000_0000
  }

  predicate InRange(position: nat, seed: nat, count: nat)
  {
    position <= MAX_POSITION && seed <= MAX_SEED && count <= LAST_COUNT
  }

  /** Within the limits nothing wraps, the identifier is never zero, and it determines
      what it was made from. */
  lemma Injective(p: nat, s: nat, c: nat, p': nat, s': nat, c': nat)
    requires InRange(p, s, c) && InRange(p', s', c')
    requires Generate(p, s, c) == Generate(p', s', c')
    ensures p == p' && s == s' && c == c'
  {
    NoWrap(p, s, c);
    NoWrap(p', s', c');
    var low, low' := s * 10000 + c, s' * 10000 + c';
    assert low < 1000000 && low' < 1000000;
    assert p == p' && low == low';
  }

  lemma NoWrap(p: nat, s: nat, c: nat)
    requires InRange(p, s, c)
    ensures Generate(p, s, c) == (p + 1) * 1000000 + s * 10000 + c != 0
  {
  }

  /** The limits are tight: the largest identifier is the largest 32-bit number, and one
      more client slot makes the identifiers wrap. */
  lemma LimitsTight()
    ensures Generate(MAX_POSITION, MAX_SEED, LAST_COUNT) == 0xffff_ffff
    ensures Generate(MAX_POSITION, MAX_SEED, LAST_COUNT + 1) == 0
    ensures Generate(MAX_POSITION + 1, MAX_SEED, LAST_COUNT) < Generate(0, 0, 0)
  {
  }

  /** A thread's counter. */
  function Next(count: nat): (next: nat)
    ensures count <= LAST_COUNT ==> next <= LAST_COUNT
  {
    if count == LAST_COUNT then 0 else count + 1
  }

  class Thread {
    var count: nat          // counter_e2e

    constructor ()
      ensures count == 0
    {
      count := 0;
    }

    method NewId(position: nat, seed: nat) returns (id: Word)
      modifies this
      ensures id == Generate(position, seed, old(count)) && count == Next(old(count))
    {
      id := ((position + 1) * 1000000 + seed * 10000 + count) % 0x1_0000_0000;
      if count == LAST_COUNT {
        count := 0;
      } else {
        count := count + 1;
      }
    }
  }

  /** The counter after `n` requests. */
  function CountAfter(count: nat, n: nat): (c: nat)
  {
    if n == 0 then count else Next(CountAfter(count, n - 1))
  }

  lemma {:induction false} CountAfterIs(count: nat, n: nat)
    requires count <= LAST_COUNT
    ensures CountAfter(count, n) == (count + n) % (LAST_COUNT + 1)
  {
    if n > 0 {
      CountAfterIs(count, n - 1);
    } else {
      assert count % (LAST_COUNT + 1) == count;
    }
  }

  /** Two requests of one thread that are less than 7296 apart get different
      identifiers, whichever of its clients they are from. */
  lemma ConsecutiveDiffer(count: nat, i: nat, j: nat, p: nat, p': nat, seed: nat)
    requires count <= LAST_COUNT && i < j < i + LAST_COUNT + 1
    requires p <= MAX_POSITION && p' <= MAX_POSITION && seed <= MAX_SEED
    ensures Generate(p, seed, CountAfter(count, i)) != Generate(p', seed, CountAfter(count, j))
  {
    CountAfterIs(count, i);
    CountAfterIs(count, j);
    var a, b := CountAfter(count, i), CountAfter(count, j);
    if Generate(p, seed, a) == Generate(p', seed, b) {
      Injective(p, seed, a, p', seed, b);
      ModuloApart(count + i, j - i);
    }
  }

  lemma ModuloApart(x: nat, d: nat)
    requires 0 < d < LAST_COUNT + 1
    ensures x % (LAST_COUNT + 1) != (x + d) % (LAST_COUNT + 1)
  {
  }
}
