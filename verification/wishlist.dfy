/** The wishlist context's state rules: the wishlist is a list of tour
    ids; adding is set-like and removing drops every occurrence. */
module Wishlist {
  import Seqs

  /** addToWishlist: an id already present leaves the list as it is;
      otherwise it is appended. */
  function Add(w: seq<string>, id: string): (r: seq<string>)
    ensures id in w ==> r == w
    ensures id !in w ==> r == w + [id]
    ensures id in r
  {
    if id in w then w else w + [id]
  }

  /** removeFromWishlist: every occurrence of id goes, the rest keep their order. */
  function Remove(w: seq<string>, id: string): (r: seq<string>)
    ensures id !in r
    ensures forall x :: x != id ==> multiset(r)[x] == multiset(w)[x]
    ensures Seqs.IsSubsequence(r, w)
  {
    var r := Seqs.Filter(w, (x: string) => x != id);
    forall x | x != id ensures multiset(r)[x] == multiset(w)[x] {
      Seqs.FilterMultiset(w, (x: string) => x != id, x);
    }
    r
  }

  /** isTourInWishlist. */
  function Contains(w: seq<string>, id: string): (b: bool)
    ensures b <==> exists i :: 0 <= i < |w| && w[i] == id
  {
    id in w
  }

  ghost predicate NoDuplicates(w: seq<string>)
  {
    forall i, j :: 0 <= i < j < |w| ==> w[i] != w[j]
  }

  lemma AddIdempotent(w: seq<string>, id: string)
    ensures Add(Add(w, id), id) == Add(w, id)
  {
  }

  lemma AddKeepsNoDuplicates(w: seq<string>, id: string)
    requires NoDuplicates(w)
    ensures NoDuplicates(Add(w, id))
  {
    if id !in w {
      var r := w + [id];
      forall i, j | 0 <= i < j < |r| ensures r[i] != r[j] {
        if j == |w| { assert r[i] == w[i]; }
      }
    }
  }

  lemma RemoveKeepsNoDuplicates(w: seq<string>, id: string)
    requires NoDuplicates(w)
    ensures NoDuplicates(Remove(w, id))
  {
    var r := Remove(w, id);
    forall i, j | 0 <= i < j < |r| ensures r[i] != r[j] {
      if r[i] == r[j] {
        var x := r[i];
        TwoCopies(r, i, j);
        DistinctCountsOnce(w, x);
      }
    }
  }

  /** Two equal entries make a value count at least twice. */
  lemma TwoCopies(r: seq<string>, i: int, j: int)
    requires 0 <= i < j < |r| && r[i] == r[j]
    ensures multiset(r)[r[i]] >= 2
  {
    var a, b, c := r[..i], r[i + 1..j], r[j + 1..];
    assert r == a + [r[i]] + b + [r[j]] + c;
    assert multiset(r) == multiset(a) + multiset{r[i]} + multiset(b) + multiset{r[j]} + multiset(c);
  }

  lemma {:induction false} DistinctCountsOnce(w: seq<string>, x: string)
    requires NoDuplicates(w)
    ensures multiset(w)[x] <= 1
    decreases |w|
  {
    if |w| > 0 {
      assert w == [w[0]] + w[1..];
      DistinctCountsOnce(w[1..], x);
      if w[0] == x {
        assert x !in w[1..];
      }
    }
  }

  lemma {:induction false} RemoveAbsent(w: seq<string>, id: string)
    requires id !in w
    ensures Remove(w, id) == w
    decreases |w|
  {
    if |w| > 0 {
      RemoveAbsent(w[1..], id);
    }
  }

  lemma {:induction false} RemoveAppended(w: seq<string>, id: string)
    ensures Remove(w + [id], id) == Remove(w, id)
    decreases |w|
  {
    if |w| == 0 {
      assert [id][1..] == [];
    } else {
      assert (w + [id])[1..] == w[1..] + [id];
      RemoveAppended(w[1..], id);
    }
  }

  /** Adding a new id and removing it again restores the list. */
  lemma RemoveUndoesAdd(w: seq<string>, id: string)
    requires id !in w
    ensures Remove(Add(w, id), id) == w
  {
    RemoveAppended(w, id);
    RemoveAbsent(w, id);
  }

  lemma RemoveIdempotent(w: seq<string>, id: string)
    ensures Remove(Remove(w, id), id) == Remove(w, id)
  {
    RemoveAbsent(Remove(w, id), id);
  }

  /** The membership test after an add or a remove: adding puts exactly
      the one id in, removing takes exactly the one id out. */
  lemma ContainsAfterChange(w: seq<string>, id: string, x: string)
    ensures Contains(Add(w, id), x) <==> Contains(w, x) || x == id
    ensures Contains(Remove(w, id), x) <==> Contains(w, x) && x != id
  {
    assert multiset(Remove(w, id))[x] > 0 <==> x in Remove(w, id);
  }

  /** The tour page's wishlist button: remove when present, add otherwise. */
  function Toggle(w: seq<string>, id: string): (r: seq<string>)
    ensures Contains(r, id) == !Contains(w, id)
    ensures forall x :: x != id ==> (Contains(r, x) <==> Contains(w, x))
  {
    if Contains(w, id) then Remove(w, id) else Add(w, id)
  }

  /** Pressing the button twice on a tour not in the wishlist restores it. */
  lemma ToggleTwice(w: seq<string>, id: string)
    requires id !in w
    ensures Toggle(Toggle(w, id), id) == w
  {
    RemoveUndoesAdd(w, id);
  }
}
