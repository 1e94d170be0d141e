/**
 The byte-wise order of strings, as the table store and Python compare ASCII text.
 */
module TextOrder {
  predicate AtMost(a: string, b: string) {
    if a == "" then true
    else if b == "" then false
    else if a[0] != b[0] then a[0] < b[0]
    else AtMost(a[1..], b[1..])
  }

  predicate Before(a: string, b: string) { AtMost(a, b) && a != b }

  lemma {:induction false} AtMostIsReflexive(a: string)
    ensures AtMost(a, a)
    decreases |a|
  {
    if a == "" {
    } else {
      AtMostIsReflexive(a[1..]);
    }
  }

  /** Any two strings compare, and both ways only when they are equal. */
  lemma {:induction false} AtMostIsTotal(a: string, b: string)
    ensures AtMost(a, b) || AtMost(b, a)
    ensures AtMost(a, b) && AtMost(b, a) ==> a == b
    decreases |a|
  {
    if a == "" || b == "" || a[0] != b[0] {
    } else {
      AtMostIsTotal(a[1..], b[1..]);
      assert a == [a[0]] + a[1..] && b == [b[0]] + b[1..];
    }
  }

  lemma {:induction false} AtMostIsTransitive(a: string, b: string, c: string)
    requires AtMost(a, b) && AtMost(b, c)
    ensures AtMost(a, c)
    decreases |a|
  {
    if a == "" || a[0] != b[0] || b[0] != c[0] {
    } else {
      AtMostIsTransitive(a[1..], b[1..], c[1..]);
    }
  }

  /** Strings with heads of one length compare by head first. */
  lemma {:induction false} CompareHeads(a: string, s: string, b: string, t: string)
    requires |a| == |b|
    ensures AtMost(a + s, b + t) <==> if a == b then AtMost(s, t) else AtMost(a, b)
    decreases |a|
  {
    if a == "" {
      assert a + s == s && b + t == t;
    } else {
      assert (a + s)[0] == a[0] && (b + t)[0] == b[0];
      assert (a + s)[1..] == a[1..] + s && (b + t)[1..] == b[1..] + t;
      CompareHeads(a[1..], s, b[1..], t);
      assert a == [a[0]] + a[1..] && b == [b[0]] + b[1..];
    }
  }
}
