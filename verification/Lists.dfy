/** Taking one element out of a sequence. */
module Lists {

  function Without<T>(q: seq<T>, i: nat): seq<T>
    requires i < |q|
  {
    q[..i] + q[i + 1..]
  }

  lemma WithoutMembers<T>(q: seq<T>, i: nat)
    requires i < |q|
    ensures forall x <- Without(q, i) :: x in q
  {
  }

  lemma WithoutCounts<T>(q: seq<T>, i: nat)
    requires i < |q|
    ensures multiset(Without(q, i)) == multiset(q) - multiset{q[i]}
  {
    assert q == q[..i] + [q[i]] + q[i + 1..];
  }

  lemma WithoutAt<T>(q: seq<T>, i: nat, j: nat)
    requires i < |q| && j < |q| && i != j
    ensures Without(q, i)[if j < i then j else j - 1] == q[j]
  {
  }

  /** Any two elements can be brought to the front, in either order. */
  lemma TwoToFront<T>(q: seq<T>, i: nat, j: nat) returns (rest: seq<T>)
    requires i < |q| && j < |q| && i != j
    ensures multiset([q[i], q[j]] + rest) == multiset(q) && multiset([q[j], q[i]] + rest) == multiset(q)
  {
    var most, k := Without(q, i), if j < i then j else j - 1;
    WithoutAt(q, i, j);
    rest := Without(most, k);
    WithoutCounts(q, i);
    WithoutCounts(most, k);
    InAnyCase(multiset(q), multiset(most), q[i], q[j], rest);
  }

  lemma InAnyCase<T>(whole: multiset<T>, most: multiset<T>, a: T, b: T, rest: seq<T>)
    requires a in whole && most == whole - multiset{a} && b in most && multiset(rest) == most - multiset{b}
    ensures multiset([a, b] + rest) == whole && multiset([b, a] + rest) == whole
  {
    assert multiset([a, b]) == multiset{a, b} && multiset([b, a]) == multiset{a, b};
  }
}
