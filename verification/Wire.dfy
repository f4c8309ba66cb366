// Bytes on the wire and the uptime clock (monitoring/flow/*_parser.py).

module Wire {

  type Byte = b: int | 0 <= b < 256

  /** Big-endian value of a byte string. */
  function Be(s: seq<Byte>): nat {
    if s == [] then 0 else 256 * Be(s[..|s| - 1]) + s[|s| - 1]
  }

  /** The len-byte big-endian form of n. */
  function BeEnc(n: nat, len: nat): (s: seq<Byte>)
    ensures |s| == len
  {
    if len == 0 then [] else BeEnc(n / 256, len - 1) + [n % 256]
  }

  function Pow256(k: nat): nat {
    if k == 0 then 1 else 256 * Pow256(k - 1)
  }

  lemma PowSmall()
    ensures Pow256(2) == 0x10000 && Pow256(4) == 0x1_0000_0000
  {
    assert Pow256(1) == 256;
    assert Pow256(2) == 256 * Pow256(1);
    assert Pow256(3) == 256 * Pow256(2);
  }

  lemma {:induction false} PowMonotone(k: nat, n: nat)
    requires k <= n
    ensures Pow256(k) <= Pow256(n)
    decreases n
  {
    if k < n {
      PowMonotone(k, n - 1);
    }
  }

  /** A number that fits its width is read back as itself. */
  lemma {:induction false} BeOfEnc(n: nat, len: nat)
    requires n < Pow256(len)
    ensures Be(BeEnc(n, len)) == n
    decreases len
  {
    if len > 0 {
      BeOfEnc(n / 256, len - 1);
      assert BeEnc(n, len)[..len - 1] == BeEnc(n / 256, len - 1);
    }
  }

  /** A byte string is the encoding of its value. */
  lemma {:induction false} EncOfBe(s: seq<Byte>)
    ensures BeEnc(Be(s), |s|) == s
    ensures Be(s) < Pow256(|s|)
    decreases |s|
  {
    if s != [] {
      EncOfBe(s[..|s| - 1]);
      assert s == s[..|s| - 1] + [s[|s| - 1]];
    }
  }

  /** The first byte weighs most. */
  lemma BigEndian(a: Byte, b: Byte, c: Byte, d: Byte)
    ensures Be([a]) == a && Be([a, b]) == 256 * a + b
    ensures Be([a, b, c, d]) == 16777216 * a + 65536 * b + 256 * c + d
  {
    assert [a][..0] == [] && [a, b][..1] == [a] && [a, b, c][..2] == [a, b] && [a, b, c, d][..3] == [a, b, c];
  }

  function U16(s: seq<Byte>, i: nat): nat
    requires i + 2 <= |s|
  {
    (s[i] as int) * 0x100 + s[i + 1]
  }

  function U32(s: seq<Byte>, i: nat): nat
    requires i + 4 <= |s|
  {
    (s[i] as int) * 0x100_0000 + (s[i + 1] as int) * 0x1_0000 + (s[i + 2] as int) * 0x100 + s[i + 3]
  }

  lemma U16IsBe(s: seq<Byte>, i: nat)
    requires i + 2 <= |s|
    ensures U16(s, i) == Be(s[i..i + 2])
  {
    BeLast(s, i, i + 2);
    BeLast(s, i, i + 1);
  }

  lemma U32IsBe(s: seq<Byte>, i: nat)
    requires i + 4 <= |s|
    ensures U32(s, i) == Be(s[i..i + 4])
  {
    BeLast(s, i, i + 4);
    BeLast(s, i, i + 3);
    BeLast(s, i, i + 2);
    BeLast(s, i, i + 1);
  }

  lemma BeLast(s: seq<Byte>, i: nat, j: nat)
    requires i < j <= |s|
    ensures Be(s[i..j]) == 256 * Be(s[i..j - 1]) + s[j - 1]
  {
    assert s[i..j][..j - i - 1] == s[i..j - 1];
  }

  /** Some bytes stand at a position. */
  predicate At(p: seq<Byte>, i: nat, bytes: seq<Byte>) {
    i + |bytes| <= |p| && forall k {:trigger bytes[k]} :: 0 <= k < |bytes| ==> bytes[k] == p[i + k]
  }

  lemma AtSlice(p: seq<Byte>, i: nat, bytes: seq<Byte>)
    ensures At(p, i, bytes) <==> i + |bytes| <= |p| && p[i..i + |bytes|] == bytes
  {
    if i + |bytes| <= |p| && p[i..i + |bytes|] == bytes {
      forall k | 0 <= k < |bytes| ensures bytes[k] == p[i + k] {
        assert p[i..i + |bytes|][k] == p[i + k];
      }
    }
  }

  lemma AtParts(p: seq<Byte>, i: nat, a: seq<Byte>, b: seq<Byte>)
    ensures At(p, i, a + b) <==> At(p, i, a) && At(p, i + |a|, b)
  {
    if At(p, i, a + b) {
      forall k | 0 <= k < |a| ensures a[k] == p[i + k] {
        assert (a + b)[k] == a[k];
      }
      forall k | 0 <= k < |b| ensures b[k] == p[i + |a| + k] {
        assert (a + b)[|a| + k] == b[k];
      }
    }
  }

  lemma AtConcat(pre: seq<Byte>, bytes: seq<Byte>, post: seq<Byte>)
    ensures At(pre + bytes + post, |pre|, bytes)
  {
  }

  lemma U16At(p: seq<Byte>, i: nat, n: nat)
    requires n < 0x10000 && At(p, i, BeEnc(n, 2))
    ensures U16(p, i) == n
  {
    PowSmall();
    AtSlice(p, i, BeEnc(n, 2));
    BeOfEnc(n, 2);
    U16IsBe(p, i);
  }

  lemma U32At(p: seq<Byte>, i: nat, n: nat)
    requires n < 0x1_0000_0000 && At(p, i, BeEnc(n, 4))
    ensures U32(p, i) == n
  {
    PowSmall();
    AtSlice(p, i, BeEnc(n, 4));
    BeOfEnc(n, 4);
    U32IsBe(p, i);
  }

  // ------------------------------------------------------------------
  // Router uptime
  // ------------------------------------------------------------------

  const ROLLOVER := 0x1_0000_0000
  const MAX_AGE := 2592000000

  /** How long before export an event was, from the router's uptime at export and at the event. Both
      are 32-bit millisecond counters, so an event ahead of the export is taken to be a range older. */
  function Age(sysUptime: int, uptime: int): int {
    var diff := sysUptime - uptime;
    if diff < 0 then diff + ROLLOVER else diff
  }

  /** The time of an event, in milliseconds; an age above 30 days counts as unknown. */
  function EventTime(sysUptime: int, unixSecs: int, uptime: int): int {
    var age := Age(sysUptime, uptime);
    if age > MAX_AGE then 1000 * unixSecs else 1000 * unixSecs - age
  }

  /** A counter read modulo 2^32 only shows the age modulo 2^32. */
  lemma WrappedAge(clock: nat, age: nat)
    requires age <= clock
    ensures Age(clock % ROLLOVER, (clock - age) % ROLLOVER) == age % ROLLOVER
  {
    var q1, r1 := clock / ROLLOVER, clock % ROLLOVER;
    var q2, r2 := (clock - age) / ROLLOVER, (clock - age) % ROLLOVER;
    assert age == ROLLOVER * (q1 - q2) + (r1 - r2);
    if r1 >= r2 {
      ModUnique(age, q1 - q2, r1 - r2);
    } else {
      ModUnique(age, q1 - q2 - 1, r1 - r2 + ROLLOVER);
    }
  }

  lemma ModUnique(x: nat, q: int, r: int)
    requires x == ROLLOVER * q + r && 0 <= r < ROLLOVER
    ensures x % ROLLOVER == r
  {
  }

  /** Whatever the counters did in between, an event is dated exactly when its age, modulo the
      counter's range, is its true age and at most 30 days. */
  lemma EventTimeExact(clock: nat, unixSecs: nat, age: nat)
    requires age <= clock
    ensures EventTime(clock % 0x1_0000_0000, unixSecs, (clock - age) % 0x1_0000_0000) == 1000 * unixSecs - age
            <==> age <= 30 * 24 * 3600 * 1000
  {
    WrappedAge(clock, age);
    if age >= ROLLOVER {
      assert age % ROLLOVER < age;
    }
  }

  /** A decoded time lies in the 30 days before export exactly unless the event's uptime is more than
      a whole counter range ahead of the uptime at export. */
  lemma EventTimeInWindow(sysUptime: nat, unixSecs: int, uptime: nat)
    requires sysUptime < 0x1_0000_0000
    ensures 1000 * unixSecs - 30 * 24 * 3600 * 1000 <= EventTime(sysUptime, unixSecs, uptime) <= 1000 * unixSecs
            <==> uptime <= sysUptime + 0x1_0000_0000
  {
  }

  /** Of the ages of a start and an end, the end is past the 30-day bound, or the start is and the end
      has age 0, or neither is and the start is the older. (An age is negative for an event more than
      a counter range ahead of the export.) */
  predicate AgesInOrder(a: int, b: int) {
    var bound := 30 * 24 * 3600 * 1000;
    (b > bound && 0 <= a) || (a > bound && b <= 0) || b <= a <= bound
  }

  /** The decoded start is no later than the decoded end exactly when their ages are in order. */
  lemma AgesOrderTimes(sysUptime: int, unixSecs: int, first: int, last: int)
    ensures EventTime(sysUptime, unixSecs, first) <= EventTime(sysUptime, unixSecs, last) <==>
            AgesInOrder(Age(sysUptime, first), Age(sysUptime, last))
  {
  }

  /** In terms of the true ages of the two packets, the order holds exactly when it does modulo the
      counter's range. */
  lemma StartBeforeEnd(clock: nat, unixSecs: nat, first: nat, last: nat)
    requires first <= clock && last <= clock
    ensures var range := 0x1_0000_0000;
            var start := EventTime(clock % range, unixSecs, (clock - first) % range);
            var end := EventTime(clock % range, unixSecs, (clock - last) % range);
            start <= end <==> AgesInOrder(first % range, last % range)
  {
    WrappedAge(clock, first);
    WrappedAge(clock, last);
  }
}
