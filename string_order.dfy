/** Python's ordering of `str` values and of the `(time, id)` tuples that
    `summarize` sorts by. */
module StringOrder {

  /** `a < b` on Python strings: lexicographic by code point, a proper prefix
      coming first. */
  predicate Less(a: string, b: string)
  {
    if |b| == 0 then false
    else if |a| == 0 then true
    else if a[0] != b[0] then a[0] < b[0]
    else Less(a[1..], b[1..])
  }

  lemma {:induction false} LessIrreflexive(a: string)
    ensures !Less(a, a)
  {
    if |a| > 0 {
      LessIrreflexive(a[1..]);
    }
  }

  lemma {:induction false} LessTransitive(a: string, b: string, c: string)
    requires Less(a, b) && Less(b, c)
    ensures Less(a, c)
  {
    if |a| > 0 && a[0] == b[0] && b[0] == c[0] {
      LessTransitive(a[1..], b[1..], c[1..]);
    }
  }

  lemma {:induction false} LessTotal(a: string, b: string)
    ensures a == b || Less(a, b) || Less(b, a)
  {
    if |a| > 0 && |b| > 0 && a[0] == b[0] {
      LessTotal(a[1..], b[1..]);
      if a[1..] == b[1..] {
        assert a == [a[0]] + a[1..] && b == [b[0]] + b[1..];
      }
    }
  }

  /** The tuple `(time, id)` that both sorts of `summarize` use as key. */
  datatype SortKey = SortKey(time: string, id: string)

  /** Python's `<` on 2-tuples: compare the first components, then the second. */
  predicate KeyLess(x: SortKey, y: SortKey)
  {
    Less(x.time, y.time) || (x.time == y.time && Less(x.id, y.id))
  }

  predicate KeyAtMost(x: SortKey, y: SortKey)
  {
    x == y || KeyLess(x, y)
  }

  lemma KeyLessIrreflexive(x: SortKey)
    ensures !KeyLess(x, x)
  {
    LessIrreflexive(x.time);
    LessIrreflexive(x.id);
  }

  lemma KeyLessTransitive(x: SortKey, y: SortKey, z: SortKey)
    requires KeyLess(x, y) && KeyLess(y, z)
    ensures KeyLess(x, z)
  {
    if Less(x.time, y.time) && Less(y.time, z.time) {
      LessTransitive(x.time, y.time, z.time);
    } else if x.time == y.time && y.time == z.time {
      LessTransitive(x.id, y.id, z.id);
    }
  }

  lemma KeyAtMostTransitive(x: SortKey, y: SortKey, z: SortKey)
    requires KeyAtMost(x, y) && KeyAtMost(y, z)
    ensures KeyAtMost(x, z)
  {
    if x != y && y != z {
      KeyLessTransitive(x, y, z);
    }
  }

  /** Any two keys are comparable, and exactly one of `<`, `==`, `>` holds. */
  lemma KeyTrichotomy(x: SortKey, y: SortKey)
    ensures KeyLess(x, y) || x == y || KeyLess(y, x)
    ensures !(KeyLess(x, y) && KeyLess(y, x))
    ensures KeyLess(x, y) ==> x != y
  {
    LessTotal(x.time, y.time);
    LessTotal(x.id, y.id);
    KeyLessIrreflexive(x);
    if KeyLess(x, y) && KeyLess(y, x) {
      KeyLessTransitive(x, y, x);
    }
  }
}
