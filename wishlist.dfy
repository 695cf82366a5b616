/** The wishlist: the ordered list of product ids the user has favourited. */
module Wishlist {

  /** No id occurs twice. */
  predicate NoDuplicates(w: seq<string>) {
    forall i, j :: 0 <= i < j < |w| ==> w[i] != w[j]
  }

  /** The wishlist after adding id: unchanged when id is already present,
      otherwise id appended at the end. */
  function Add(w: seq<string>, id: string): (r: seq<string>)
    ensures id in r
    ensures |w| <= |r| <= |w| + 1 && r[..|w|] == w
    ensures forall x :: x in r <==> x in w || x == id
    ensures (id in w) == (r == w)
    ensures NoDuplicates(w) ==> NoDuplicates(r)
  {
    if id in w then w else w + [id]
  }

  /** Adding an id a second time changes nothing. */
  lemma AddIdempotent(w: seq<string>, id: string)
    ensures Add(Add(w, id), id) == Add(w, id)
  {
  }

  /** The wishlist after the add buttons of ids were pressed in order, starting
      from w. */
  function AddAll(w: seq<string>, ids: seq<string>): seq<string>
    decreases |ids|
  {
    if ids == [] then w else AddAll(Add(w, ids[0]), ids[1..])
  }

  /** Starting from a duplicate-free wishlist, any run of adds keeps it
      duplicate-free, grows it by at most one entry per add and never drops or
      reorders an earlier entry. */
  lemma {:induction false} AddAllInvariant(w: seq<string>, ids: seq<string>)
    requires NoDuplicates(w)
    ensures NoDuplicates(AddAll(w, ids))
    ensures |w| <= |AddAll(w, ids)| <= |w| + |ids|
    ensures AddAll(w, ids)[..|w|] == w
    decreases |ids|
  {
    if ids != [] {
      var w' := Add(w, ids[0]);
      AddAllInvariant(w', ids[1..]);
      var r := AddAll(w', ids[1..]);
      assert r[..|w|] == r[..|w'|][..|w|];
    }
  }

  /** After any run of adds the wishlist holds exactly the ids it held before
      and the ids added. */
  lemma {:induction false} AddAllElements(w: seq<string>, ids: seq<string>, x: string)
    ensures x in AddAll(w, ids) <==> x in w || x in ids
    decreases |ids|
  {
    if ids != [] {
      AddAllElements(Add(w, ids[0]), ids[1..], x);
      assert ids == [ids[0]] + ids[1..];
    }
  }

  /** From the initially empty wishlist, every reachable wishlist is free of
      duplicates and has at most as many entries as add presses. */
  lemma ReachableFromEmpty(ids: seq<string>)
    ensures NoDuplicates(AddAll([], ids)) && |AddAll([], ids)| <= |ids|
  {
    AddAllInvariant([], ids);
  }
}
