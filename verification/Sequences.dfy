/** Flattening sequences of sequences. */
module Sequences {
  function Flat<T>(xss: seq<seq<T>>): seq<T> {
    if xss == [] then [] else xss[0] + Flat(xss[1..])
  }

  lemma {:induction false} FlatSnoc<T>(xss: seq<seq<T>>, xs: seq<T>)
    ensures Flat(xss + [xs]) == Flat(xss) + xs
  {
    if xss == [] {
      assert Flat([]) + xs == xs && xs + Flat<T>([]) == xs;
      assert ([xs])[1..] == [];
    } else {
      assert (xss + [xs])[1..] == xss[1..] + [xs];
      FlatSnoc(xss[1..], xs);
    }
  }

  lemma {:induction false} FlatConcat<T>(xss: seq<seq<T>>, yss: seq<seq<T>>)
    ensures Flat(xss + yss) == Flat(xss) + Flat(yss)
  {
    if xss == [] {
      assert xss + yss == yss;
    } else {
      assert (xss + yss)[1..] == xss[1..] + yss;
      FlatConcat(xss[1..], yss);
      assert xss[0] + (Flat(xss[1..]) + Flat(yss)) == (xss[0] + Flat(xss[1..])) + Flat(yss);
    }
  }
}
