/** What a sequence adds up to when every element contributes a multiset; the order does not matter. */
module Bags {

  function Bag<S, T>(f: S -> multiset<T>, s: seq<S>): (b: multiset<T>)
  {
    if s == [] then multiset{} else f(s[0]) + Bag(f, s[1..])
  }

  function Drop<S>(s: seq<S>, j: nat): (r: seq<S>)
    requires j < |s|
  {
    s[..j] + s[j + 1..]
  }

  lemma {:induction false} BagDrop<S, T>(f: S -> multiset<T>, s: seq<S>, j: nat)
    requires j < |s|
    ensures Bag(f, s) == f(s[j]) + Bag(f, Drop(s, j))
  {
    if j == 0 {
      assert Drop(s, 0) == s[1..];
    } else {
      BagDrop(f, s[1..], j - 1);
      assert Drop(s, j)[0] == s[0] && Drop(s, j)[1..] == Drop(s[1..], j - 1);
    }
  }

  lemma DropContents<S>(s: seq<S>, j: nat)
    requires j < |s|
    ensures multiset(Drop(s, j)) == multiset(s) - multiset{s[j]}
  {
    assert s == s[..j] + [s[j]] + s[j + 1..];
  }

  lemma {:induction false} BagPermuted<S, T>(f: S -> multiset<T>, s: seq<S>, t: seq<S>)
    requires multiset(s) == multiset(t)
    ensures Bag(f, s) == Bag(f, t)
  {
    if s == [] {
      assert |multiset(t)| == 0;
      assert t == [];
    } else {
      assert s[0] in multiset(t);
      var j: nat :| j < |t| && t[j] == s[0];
      DropContents(t, j);
      DropContents(s, 0);
      assert Drop(s, 0) == s[1..];
      BagPermuted(f, s[1..], Drop(t, j));
      BagDrop(f, t, j);
    }
  }
}
