/**
 * The review store of internal/bot/rating.go: an append-only list of reviews numbered from a
 * NextID counter, a status update by id, the approved and searched views, and a list of blocked
 * authors. The datatype Store is the value of the three fields; class RatingStore updates them in
 * place with the source's search loops.
 */
module Reviews {
  import opened Wrappers
  import opened Text

  /** The three status strings the source writes: "pending", "approved", "rejected". */
  datatype Status = Pending | Approved | Rejected

  datatype Review = Review(id: int, userID: int, username: string, isAnonymous: bool,
                           professor: string, score: int, text: string, status: Status, createdAt: int)

  /** The index of the first review with the given id. */
  function Find(rs: seq<Review>, id: int): (k: Option<nat>)
    ensures k.Some? ==> k.value < |rs| && rs[k.value].id == id && forall j :: 0 <= j < k.value ==> rs[j].id != id
    ensures k.None? ==> forall j :: 0 <= j < |rs| ==> rs[j].id != id
  {
    if rs == [] then None
    else if rs[0].id == id then Some(0)
    else match Find(rs[1..], id)
      case None => None
      case Some(k) => Some(k + 1)
  }

  /** GetReview: the first review with the given id, if any. */
  function Get(rs: seq<Review>, id: int): (r: Option<Review>)
    ensures r.Some? <==> exists j :: 0 <= j < |rs| && rs[j].id == id
    ensures r.Some? ==> r.value in rs && r.value.id == id
  {
    match Find(rs, id)
    case None => None
    case Some(k) => Some(rs[k])
  }

  /**
   * UpdateReviewStatus on the list: the first review with the id gets the new status; every
   * review keeps all its other fields, and no other review changes.
   */
  function SetStatus(rs: seq<Review>, id: int, st: Status): (r: seq<Review>)
    ensures |r| == |rs|
    ensures forall k :: 0 <= k < |rs| ==> r[k] == rs[k].(status := r[k].status)
    ensures forall k :: 0 <= k < |rs| && Find(rs, id) != Some(k) ==> r[k] == rs[k]
    ensures Find(rs, id).Some? ==> r[Find(rs, id).value].status == st
  {
    match Find(rs, id)
    case None => rs
    case Some(k) => rs[k := rs[k].(status := st)]
  }

  /** A review appended with an id no earlier review has is the one Get finds and SetStatus changes. */
  lemma NewestReview(rs: seq<Review>, x: Review, st: Status)
    requires forall j :: 0 <= j < |rs| ==> rs[j].id != x.id
    ensures Get(rs + [x], x.id) == Some(x)
    ensures SetStatus(rs + [x], x.id, st) == rs + [x.(status := st)]
  {
    var all := rs + [x];
    assert forall j :: 0 <= j < |rs| ==> all[j].id != x.id;
    assert all[|rs|] == x;
    assert Find(all, x.id) == Some(|rs|);
    var r := SetStatus(all, x.id, st);
    assert forall j :: 0 <= j < |all| ==> r[j] == (rs + [x.(status := st)])[j];
  }

  /** GetApprovedReviews: the approved reviews, in stored order. */
  function ApprovedOnly(rs: seq<Review>): (r: seq<Review>)
    ensures |r| <= |rs|
    ensures forall x :: x in r <==> x in rs && x.status == Approved
  {
    if rs == [] then []
    else
      var rest := ApprovedOnly(rs[1..]);
      assert forall x :: x in rs <==> x == rs[0] || x in rs[1..];
      if rs[0].status == Approved then [rs[0]] + rest else rest
  }

  /** Whether a review's lower-cased professor contains the lower-cased query. */
  predicate ProfessorMatches(x: Review, query: string) {
    Contains(Lower(x.professor), Lower(query))
  }

  /** SearchReviews: the approved reviews whose professor matches the query, in stored order. */
  function Search(rs: seq<Review>, query: string): (r: seq<Review>)
    ensures |r| <= |rs|
    ensures forall x :: x in r <==> x in rs && x.status == Approved && ProfessorMatches(x, query)
  {
    if rs == [] then []
    else
      var rest := Search(rs[1..], query);
      assert forall x :: x in rs <==> x == rs[0] || x in rs[1..];
      if rs[0].status == Approved && ProfessorMatches(rs[0], query) then [rs[0]] + rest else rest
  }

  /** The approved view distributes over concatenation: it keeps the stored order. */
  lemma {:induction false} ApprovedConcat(a: seq<Review>, b: seq<Review>)
    ensures ApprovedOnly(a + b) == ApprovedOnly(a) + ApprovedOnly(b)
  {
    if a == [] {
      assert a + b == b;
    } else {
      assert (a + b)[1..] == a[1..] + b;
      ApprovedConcat(a[1..], b);
    }
  }

  /** The search view distributes over concatenation: it keeps the stored order. */
  lemma {:induction false} SearchConcat(a: seq<Review>, b: seq<Review>, query: string)
    ensures Search(a + b, query) == Search(a, query) + Search(b, query)
  {
    if a == [] {
      assert a + b == b;
    } else {
      assert (a + b)[1..] == a[1..] + b;
      SearchConcat(a[1..], b, query);
    }
  }

  /** One more review at the end adds it to the approved view exactly when it is approved. */
  lemma ApprovedSnoc(rs: seq<Review>, x: Review)
    ensures ApprovedOnly(rs + [x]) == ApprovedOnly(rs) + (if x.status == Approved then [x] else [])
  {
    ApprovedConcat(rs, [x]);
    assert [x][1..] == [];
  }

  /** One more review at the end adds it to the search results exactly when it is approved and matches. */
  lemma SearchSnoc(rs: seq<Review>, x: Review, query: string)
    ensures Search(rs + [x], query)
              == Search(rs, query) + (if x.status == Approved && ProfessorMatches(x, query) then [x] else [])
  {
    SearchConcat(rs, [x], query);
    assert [x][1..] == [];
  }

  /** The empty query matches every professor, so an empty search lists all approved reviews. */
  lemma {:induction false} SearchEmptyQuery(rs: seq<Review>)
    ensures Search(rs, "") == ApprovedOnly(rs)
  {
    if rs != [] {
      ContainsEmpty(Lower(rs[0].professor));
      assert Lower("") == "";
      SearchEmptyQuery(rs[1..]);
    }
  }

  /** Setting a status other than Approved cannot add a review to the approved view. */
  lemma RejectedLeavesView(rs: seq<Review>, id: int, x: Review)
    requires x in ApprovedOnly(SetStatus(rs, id, Rejected))
    ensures x in ApprovedOnly(rs)
  {
    var r := SetStatus(rs, id, Rejected);
    var k :| 0 <= k < |r| && r[k] == x;
    assert x.status == Approved;
    assert rs[k] == x;
  }

  predicate NoDuplicates(bs: seq<int>) {
    forall i, j :: 0 <= i < j < |bs| ==> bs[i] != bs[j]
  }

  /** BlockUser on the list: the user is appended unless already present. */
  function Block(bs: seq<int>, u: int): (r: seq<int>)
    ensures u in r
    ensures forall x :: x in r <==> x in bs || x == u
    ensures u in bs ==> r == bs
    ensures NoDuplicates(bs) ==> NoDuplicates(r)
  {
    if u in bs then bs else bs + [u]
  }

  /** The stored fields of a RatingStore. */
  datatype Store = Store(reviews: seq<Review>, blocked: seq<int>, nextID: int)
  {
    /**
     * What NewRatingStore and the mutators keep: NextID at least 1, every id in [1, NextID) and
     * strictly increasing along the list, no author blocked twice.
     */
    ghost predicate Valid() {
      && nextID >= 1
      && (forall k :: 0 <= k < |reviews| ==> 1 <= reviews[k].id < nextID)
      && (forall j, k :: 0 <= j < k < |reviews| ==> reviews[j].id < reviews[k].id)
      && NoDuplicates(blocked)
    }

    predicate IsBlocked(u: int) {
      u in blocked
    }

    /**
     * AddReview: the review gets id NextID and creation time `now` and goes at the end; NextID
     * rises by one; the returned id is the one assigned.
     */
    function Add(r: Review, now: int): (res: (Store, int))
      ensures res.1 == nextID && res.0.nextID == nextID + 1
      ensures res.0.reviews == reviews + [r.(id := nextID, createdAt := now)]
      ensures res.0.blocked == blocked
    {
      (Store(reviews + [r.(id := nextID, createdAt := now)], blocked, nextID + 1), nextID)
    }

    /** UpdateReviewStatus: the new list and whether a review with the id was found. */
    function UpdateStatus(id: int, st: Status): (res: (Store, bool))
      ensures res.1 <==> exists j :: 0 <= j < |reviews| && reviews[j].id == id
      ensures res.0 == this.(reviews := SetStatus(reviews, id, st))
    {
      (this.(reviews := SetStatus(reviews, id, st)), Find(reviews, id).Some?)
    }

    function BlockUser(u: int): (s: Store)
      ensures s.IsBlocked(u) && s.reviews == reviews && s.nextID == nextID
      ensures forall x :: s.IsBlocked(x) <==> IsBlocked(x) || x == u
    {
      this.(blocked := Block(blocked, u))
    }
  }

  /** A new store before anything is loaded from disk. */
  const Fresh := Store([], [], 1)

  lemma FreshValid()
    ensures Fresh.Valid() && Fresh.Add(Review(0, 0, "", false, "", 0, "", Pending, 0), 0).1 == 1
  {
  }

  /** Ids handed out are strictly increasing and the added review is the one GetReview finds. */
  lemma AddKeepsValid(s: Store, r: Review, now: int)
    requires s.Valid()
    ensures s.Add(r, now).0.Valid()
    ensures forall k :: 0 <= k < |s.reviews| ==> s.reviews[k].id < s.Add(r, now).1
    ensures Get(s.Add(r, now).0.reviews, s.Add(r, now).1) == Some(r.(id := s.nextID, createdAt := now))
  {
    var rs := s.Add(r, now).0.reviews;
    var id := s.nextID;
    assert rs[|rs| - 1].id == id;
    assert forall j :: 0 <= j < |rs| - 1 ==> rs[j].id != id;
    assert Find(rs, id) == Some(|rs| - 1);
  }

  /** With unique ids, the review with the id ends up with the status, and no other review changes. */
  lemma UpdateKeepsValid(s: Store, id: int, st: Status)
    requires s.Valid()
    ensures s.UpdateStatus(id, st).0.Valid()
    ensures s.UpdateStatus(id, st).0.nextID == s.nextID && s.UpdateStatus(id, st).0.blocked == s.blocked
    ensures forall k :: 0 <= k < |s.reviews| ==>
              var r := s.UpdateStatus(id, st).0.reviews[k];
              r == (if s.reviews[k].id == id then s.reviews[k].(status := st) else s.reviews[k])
  {
    var r := s.UpdateStatus(id, st).0.reviews;
    forall k | 0 <= k < |s.reviews|
      ensures r[k] == (if s.reviews[k].id == id then s.reviews[k].(status := st) else s.reviews[k])
    {
      if s.reviews[k].id == id {
        assert forall j :: 0 <= j < k ==> s.reviews[j].id != id;
        assert Find(s.reviews, id) == Some(k);
      }
    }
  }

  lemma BlockKeepsValid(s: Store, u: int)
    requires s.Valid()
    ensures s.BlockUser(u).Valid()
    ensures s.BlockUser(u).BlockUser(u) == s.BlockUser(u)
  {
  }

  /** The store object, with the source's loops. */
  class RatingStore {
    var reviews: seq<Review>
    var blockedUsers: seq<int>
    var nextID: int

    function View(): Store
      reads this
    {
      Store(reviews, blockedUsers, nextID)
    }

    /** NewRatingStore before the file is loaded: no reviews, nobody blocked, NextID 1. */
    constructor ()
      ensures View() == Fresh
    {
      reviews := [];
      blockedUsers := [];
      nextID := 1;
    }

    method AddReview(r: Review, now: int) returns (id: int)
      modifies this
      ensures (View(), id) == old(View()).Add(r, now)
    {
      var stored := r.(id := nextID, createdAt := now);
      id := nextID;
      nextID := nextID + 1;
      reviews := reviews + [stored];
    }

    /** GetReview: scans from the front and returns the first review with the id. */
    method GetReview(id: int) returns (r: Option<Review>)
      ensures r == Get(reviews, id)
    {
      var i := 0;
      while i < |reviews|
        invariant 0 <= i <= |reviews|
        invariant forall j :: 0 <= j < i ==> reviews[j].id != id
      {
        if reviews[i].id == id {
          assert Find(reviews, id) == Some(i);
          return Some(reviews[i]);
        }
        i := i + 1;
      }
      return None;
    }

    /** UpdateReviewStatus: sets the status of the first review with the id and reports whether there was one. */
    method UpdateReviewStatus(id: int, st: Status) returns (found: bool)
      modifies this
      ensures (View(), found) == old(View()).UpdateStatus(id, st)
    {
      var i := 0;
      while i < |reviews|
        invariant 0 <= i <= |reviews|
        invariant forall j :: 0 <= j < i ==> reviews[j].id != id
      {
        if reviews[i].id == id {
          assert Find(reviews, id) == Some(i);
          reviews := reviews[i := reviews[i].(status := st)];
          return true;
        }
        i := i + 1;
      }
      return false;
    }

    /** GetApprovedReviews: one pass keeping the approved reviews. */
    method GetApprovedReviews() returns (result: seq<Review>)
      ensures result == ApprovedOnly(reviews)
    {
      result := [];
      var i := 0;
      while i < |reviews|
        invariant 0 <= i <= |reviews|
        invariant result == ApprovedOnly(reviews[..i])
      {
        ApprovedSnoc(reviews[..i], reviews[i]);
        assert reviews[..i + 1] == reviews[..i] + [reviews[i]];
        if reviews[i].status == Approved {
          result := result + [reviews[i]];
        }
        i := i + 1;
      }
      assert reviews[..i] == reviews;
    }

    /** SearchReviews: one pass keeping the approved reviews whose professor matches. */
    method SearchReviews(query: string) returns (result: seq<Review>)
      ensures result == Search(reviews, query)
    {
      var q := Lower(query);
      result := [];
      var i := 0;
      while i < |reviews|
        invariant 0 <= i <= |reviews|
        invariant result == Search(reviews[..i], query)
      {
        SearchSnoc(reviews[..i], reviews[i], query);
        assert reviews[..i + 1] == reviews[..i] + [reviews[i]];
        if reviews[i].status == Approved && Contains(Lower(reviews[i].professor), q) {
          result := result + [reviews[i]];
        }
        i := i + 1;
      }
      assert reviews[..i] == reviews;
    }

    /** IsBlocked: a scan of the blocked list. */
    method IsBlocked(u: int) returns (b: bool)
      ensures b == View().IsBlocked(u)
    {
      var i := 0;
      while i < |blockedUsers|
        invariant 0 <= i <= |blockedUsers|
        invariant u !in blockedUsers[..i]
      {
        if blockedUsers[i] == u {
          return true;
        }
        assert blockedUsers[..i + 1] == blockedUsers[..i] + [blockedUsers[i]];
        i := i + 1;
      }
      assert blockedUsers[..i] == blockedUsers;
      return false;
    }

    /** BlockUser: returns early when the user is already listed, else appends. */
    method BlockUser(u: int)
      modifies this
      ensures View() == old(View()).BlockUser(u)
    {
      var i := 0;
      while i < |blockedUsers|
        invariant 0 <= i <= |blockedUsers|
        invariant u !in blockedUsers[..i]
      {
        if blockedUsers[i] == u {
          return;
        }
        assert blockedUsers[..i + 1] == blockedUsers[..i] + [blockedUsers[i]];
        i := i + 1;
      }
      assert blockedUsers[..i] == blockedUsers;
      blockedUsers := blockedUsers + [u];
    }
  }
}
