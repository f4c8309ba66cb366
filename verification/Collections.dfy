// Facts about sequences and sets that several modules use.

module Collections {
  /** Moving one element from the remaining part of a set to the finished part. */
  lemma FinishOne<T>(all: set<T>, todo: set<T>, x: T)
    requires todo <= all && x in todo
    ensures all - (todo - {x}) == (all - todo) + {x}
    ensures x !in all - todo
  {
  }

  lemma SubsetSize<T>(a: set<T>, b: set<T>)
    requires a <= b
    ensures |a| <= |b| && (a != b ==> |a| < |b|)
  {
    assert b == a + (b - a);
  }

  lemma ConcatAssoc<T>(a: seq<T>, b: seq<T>, c: seq<T>)
    ensures (a + b) + c == a + (b + c)
  {
  }

  lemma AppendOne<T>(a: seq<T>, b: seq<T>)
    requires b != []
    ensures var init, last := b[..|b| - 1], b[|b| - 1]; b == init + [last] && a + b == (a + init) + [last]
  {
  }

  lemma HeadAndTail<T>(s: seq<T>)
    requires s != []
    ensures [s[0]] + s[1..] == s
  {
  }

  lemma PrefixOfMore<T>(a: seq<T>, b: seq<T>, x: T)
    requires a <= b
    ensures a <= b + [x]
  {
  }
}
