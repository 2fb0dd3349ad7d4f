/** The induction step shared by proofs that something ignores order. */
module Permutations {
  /** Where the first element of one ordering sits in another, and what remains of both. */
  lemma Extract<T>(s: seq<T>, t: seq<T>) returns (i: nat, rest: seq<T>)
    requires s != [] && multiset(s) == multiset(t)
    ensures i < |t| && t[i] == s[0]
    ensures rest == t[..i] + t[i + 1..] && multiset(s[1..]) == multiset(rest)
    ensures s == [s[0]] + s[1..] && t == t[..i] + ([s[0]] + t[i + 1..])
  {
    assert s[0] in multiset(t);
    i :| 0 <= i < |t| && t[i] == s[0];
    rest := t[..i] + t[i + 1..];
    assert s == [s[0]] + s[1..];
    assert t == t[..i] + ([s[0]] + t[i + 1..]);
    assert multiset(rest) == multiset(t) - multiset{s[0]};
    assert multiset(s) == multiset{s[0]} + multiset(s[1..]);
  }
}
