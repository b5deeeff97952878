/** How often an element occurs in a sequence. */
module Counting {
  function One(b: bool): nat {
    if b then 1 else 0
  }

  function Count<T(==)>(s: seq<T>, x: T): nat {
    if s == [] then 0 else (if s[0] == x then 1 else 0) + Count(s[1..], x)
  }

  lemma {:induction false} CountConcat<T>(a: seq<T>, b: seq<T>, x: T)
    ensures Count(a + b, x) == Count(a, x) + Count(b, x)
    decreases |a|
  {
    if a == [] {
      assert a + b == b;
    } else {
      assert (a + b)[1..] == a[1..] + b;
      CountConcat(a[1..], b, x);
    }
  }

  lemma CountAt<T>(s: seq<T>, k: nat, x: T)
    requires k < |s|
    ensures Count(s, x) == Count(s[..k] + s[k + 1..], x) + (if s[k] == x then 1 else 0)
  {
    CountConcat(s[..k], s[k + 1..], x);
    CountConcat(s[..k], [s[k]] + s[k + 1..], x);
    assert s == s[..k] + ([s[k]] + s[k + 1..]);
  }

  lemma CountUpdate<T>(s: seq<T>, k: nat, y: T, x: T)
    requires k < |s|
    ensures Count(s[k := y], x) + (if s[k] == x then 1 else 0) == Count(s, x) + (if y == x then 1 else 0)
  {
    CountAt(s, k, x);
    CountAt(s[k := y], k, x);
    assert s[k := y][..k] + s[k := y][k + 1..] == s[..k] + s[k + 1..];
  }

  lemma CountTwo<T>(s: seq<T>, a: T, b: T, x: T)
    ensures Count(s + [a], x) == Count(s, x) + (if a == x then 1 else 0)
    ensures Count(s + [a, b], x) == Count(s, x) + (if a == x then 1 else 0) + (if b == x then 1 else 0)
  {
    CountConcat(s, [a], x);
    CountConcat(s, [a, b], x);
    assert [a][1..] == [] && [b][1..] == [] && [a, b][1..] == [b];
    assert Count([b], x) == if b == x then 1 else 0;
  }
}
