/** Values shared by every stage of the pipeline. */
module Common {

  /** A nullable cell: `None` stands for pandas' NaN / NaT. */
  datatype Option<+T> = None | Some(value: T)

  /** Number of positions of `s` holding `x`. */
  function Count<T(==)>(s: seq<T>, x: T): (n: nat)
    ensures n <= |s|
    ensures n == 0 <==> x !in s
  {
    if s == [] then 0 else (if s[0] == x then 1 else 0) + Count(s[1..], x)
  }

  /** Counting distributes over concatenation. */
  lemma {:induction false} CountConcat<T>(a: seq<T>, b: seq<T>, x: T)
    ensures Count(a + b, x) == Count(a, x) + Count(b, x)
  {
    if a != [] {
      assert (a + b)[1..] == a[1..] + b;
      CountConcat(a[1..], b, x);
    } else {
      assert a + b == b;
    }
  }

  /** `a` is `b` with some positions deleted: the order of what remains is kept. */
  predicate IsSubsequence<T(==)>(a: seq<T>, b: seq<T>)
    decreases |b|
  {
    if a == [] then true
    else if b == [] then false
    else if a[0] == b[0] then IsSubsequence(a[1..], b[1..])
    else IsSubsequence(a, b[1..])
  }

  /** Deleting positions never makes a sequence longer. */
  lemma {:induction false} SubsequenceShorter<T>(a: seq<T>, b: seq<T>)
    requires IsSubsequence(a, b)
    ensures |a| <= |b|
    decreases |b|
  {
    if a != [] && b != [] {
      if a[0] == b[0] {
        SubsequenceShorter(a[1..], b[1..]);
      } else {
        SubsequenceShorter(a, b[1..]);
      }
    }
  }

  /** `[x for x in s if p(x)]`: the elements satisfying `p`, in order,
      each as often as it occurs in `s`. */
  function Filter<T(==,!new)>(s: seq<T>, p: T -> bool): (r: seq<T>)
    ensures forall x :: Count(r, x) == if p(x) then Count(s, x) else 0
    ensures forall x :: x in r <==> x in s && p(x)
    ensures IsSubsequence(r, s)
  {
    if s == [] then []
    else
      var rest := Filter(s[1..], p);
      assert forall x :: Count(s, x) == (if s[0] == x then 1 else 0) + Count(s[1..], x);
      if !p(s[0]) then
        assert rest != [] ==> rest[0] != s[0] by {
          if rest != [] { assert Count(rest, rest[0]) > 0; }
        }
        rest
      else
        assert ([s[0]] + rest)[1..] == rest;
        forall x ensures Count([s[0]] + rest, x) == Count([s[0]], x) + Count(rest, x) {
          CountConcat([s[0]], rest, x);
        }
        [s[0]] + rest
  }
}
