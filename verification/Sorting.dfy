/** The order in which `Vec<String>::sort` puts keys, and the sort itself. */
module Sorting {

  /** Lexicographic order by code point. */
  predicate Less(a: string, b: string) {
    if b == [] then false
    else if a == [] then true
    else a[0] < b[0] || (a[0] == b[0] && Less(a[1..], b[1..]))
  }

  /** One string comes before another that extends it, or that has a greater character where they part. */
  lemma {:induction false} LessMeans(common: string, a: string, b: string)
    ensures a == [] && b != [] ==> Less(common + a, common + b) && !Less(common + b, common + a)
    ensures a != [] && b != [] && a[0] < b[0] ==>
              Less(common + a, common + b) && !Less(common + b, common + a)
  {
    if common == [] {
      assert common + a == a && common + b == b;
    } else {
      LessMeans(common[1..], a, b);
      assert (common + a)[1..] == common[1..] + a && (common + b)[1..] == common[1..] + b;
    }
  }

  predicate StrictlySorted(s: seq<string>) {
    forall i, j | 0 <= i < j < |s| :: Less(s[i], s[j])
  }

  lemma {:induction false} LessTransitive(a: string, b: string, c: string)
    requires Less(a, b) && Less(b, c)
    ensures Less(a, c)
  {
    if a != [] && a[0] == b[0] == c[0] {
      LessTransitive(a[1..], b[1..], c[1..]);
    }
  }

  lemma {:induction false} LessTotal(a: string, b: string)
    ensures a == b || Less(a, b) || Less(b, a)
  {
    if a != [] && b != [] && a[0] == b[0] {
      LessTotal(a[1..], b[1..]);
      assert a == [a[0]] + a[1..] && b == [b[0]] + b[1..];
    }
  }

  /** Sorting a list without repetitions. */
  method Sort(s: seq<string>) returns (r: seq<string>)
    requires forall i, j | 0 <= i < j < |s| :: s[i] != s[j]
    ensures StrictlySorted(r) && multiset(r) == multiset(s)
  {
    r := [];
    for n := 0 to |s|
      invariant StrictlySorted(r) && multiset(r) == multiset(s[..n])
    {
      assert s[n] !in s[..n];
      assert s[n] !in multiset(r);
      r := Insert(r, s[n]);
      assert s[..n + 1] == s[..n] + [s[n]];
    }
    assert s[..|s|] == s;
  }

  method Insert(s: seq<string>, x: string) returns (r: seq<string>)
    requires StrictlySorted(s) && x !in s
    ensures StrictlySorted(r) && multiset(r) == multiset(s) + multiset{x}
  {
    hide Less;
    var k := 0;
    while k < |s| && Less(s[k], x)
      invariant 0 <= k <= |s|
      invariant forall i | 0 <= i < k :: Less(s[i], x)
    {
      k := k + 1;
    }
    forall i | k <= i < |s| ensures Less(x, s[i]) {
      LessTotal(s[k], x);
      if i > k {
        LessTransitive(x, s[k], s[i]);
      }
    }
    r := s[..k] + [x] + s[k..];
    assert s == s[..k] + s[k..];
  }
}
