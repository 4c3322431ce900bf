/** Optional values, and the "keep what a function yields" pass over a
    sequence that both the extractor (one record per container that has a
    question) and the catalog rely on. */
module Seqs {

  datatype Option<+T> = None | Some(value: T)

  /** The values `f` yields on the elements of `s`, in order, skipping the
      elements on which it yields nothing. */
  function Kept<A, B>(f: A -> Option<B>, s: seq<A>): (r: seq<B>)
    ensures |r| <= |s|
  {
    if s == [] then []
    else
      var rest := Kept(f, s[..|s| - 1]);
      match f(s[|s| - 1])
      case Some(b) => rest + [b]
      case None => rest
  }

  /** Appending one element appends what it yields. */
  lemma KeptSnoc<A, B>(f: A -> Option<B>, s: seq<A>, x: A)
    ensures Kept(f, s + [x]) == Kept(f, s) + (match f(x) case Some(b) => [b] case None => [])
  {
    assert (s + [x])[..|s|] == s;
  }

  /** What two consecutive stretches yield is what the first yields
      followed by what the second yields. */
  lemma {:induction false} KeptAppend<A, B>(f: A -> Option<B>, s: seq<A>, t: seq<A>)
    ensures Kept(f, s + t) == Kept(f, s) + Kept(f, t)
  {
    if t == [] {
      assert s + t == s;
    } else {
      var init, last := t[..|t| - 1], t[|t| - 1];
      assert t == init + [last];
      assert s + t == (s + init) + [last];
      KeptSnoc(f, s + init, last);
      KeptAppend(f, s, init);
      KeptSnoc(f, init, last);
    }
  }

  /** Prepending one element prepends what it yields. */
  lemma KeptCons<A, B>(f: A -> Option<B>, x: A, s: seq<A>)
    ensures Kept(f, [x] + s) == (match f(x) case Some(b) => [b] case None => []) + Kept(f, s)
  {
    KeptAppend(f, [x], s);
    KeptSnoc(f, [], x);
    assert [] + [x] == [x];
  }

  /** The i-th kept value comes from the element at some index j, and
      exactly i values are kept from the elements before j: kept values
      appear in the order of the elements they come from. */
  lemma {:induction false} KeptSource<A, B>(f: A -> Option<B>, s: seq<A>, i: nat) returns (j: nat)
    requires i < |Kept(f, s)|
    ensures j < |s| && f(s[j]) == Some(Kept(f, s)[i]) && |Kept(f, s[..j])| == i
  {
    var init := s[..|s| - 1];
    if i < |Kept(f, init)| {
      j := KeptSource(f, init, i);
      assert init[..j] == s[..j];
    } else {
      j := |s| - 1;
    }
  }

  /** Nothing is kept exactly when `f` yields nothing on every element. */
  lemma {:induction false} KeptEmpty<A, B>(f: A -> Option<B>, s: seq<A>)
    ensures Kept(f, s) == [] <==> forall j :: 0 <= j < |s| ==> f(s[j]).None?
  {
    if s != [] {
      var init := s[..|s| - 1];
      KeptEmpty(f, init);
      assert forall j :: 0 <= j < |init| ==> init[j] == s[j];
      if Kept(f, s) == [] {
        assert f(s[|s| - 1]).None?;
      }
    }
  }
}
