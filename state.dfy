/**
 * Verification state of internal/core/state.go: per-user correct-answer counts and newbie flags.
 * The datatype gives the value of the two maps and the effect of each mutator on it; class State
 * is the shared object the handlers update in place.
 */
module CoreState {

  /** `m2` differs from `m1` at most at key `u`. */
  ghost predicate SameExcept<V>(m1: map<int, V>, m2: map<int, V>, u: int) {
    forall x :: x != u ==> (x in m1 <==> x in m2) && (x in m1 ==> m1[x] == m2[x])
  }

  datatype Verification = Verification(userCorrect: map<int, int>, newbie: map<int, bool>)
  {
    /** TotalCorrect reads an absent entry as Go's zero value. */
    function TotalCorrect(u: int): int {
      if u in userCorrect then userCorrect[u] else 0
    }

    /** IsNewbie reads an absent entry as false. */
    function IsNewbie(u: int): bool {
      u in newbie && newbie[u]
    }

    /** InitUser: the count is present and exactly 0; nothing else changes. */
    function InitUser(u: int): (r: Verification)
      ensures u in r.userCorrect && r.TotalCorrect(u) == 0
      ensures SameExcept(userCorrect, r.userCorrect, u) && r.newbie == newbie
    {
      this.(userCorrect := userCorrect[u := 0])
    }

    /** IncCorrect: the count rises by one, an absent entry counting as 0. */
    function IncCorrect(u: int): (r: Verification)
      ensures u in r.userCorrect && r.TotalCorrect(u) == TotalCorrect(u) + 1
      ensures SameExcept(userCorrect, r.userCorrect, u) && r.newbie == newbie
    {
      this.(userCorrect := userCorrect[u := TotalCorrect(u) + 1])
    }

    /** Reset: the count entry is gone, so it reads as 0. */
    function Reset(u: int): (r: Verification)
      ensures u !in r.userCorrect && r.TotalCorrect(u) == 0
      ensures SameExcept(userCorrect, r.userCorrect, u) && r.newbie == newbie
    {
      this.(userCorrect := userCorrect - {u})
    }

    /** SetNewbie: the user is a newbie afterwards. */
    function SetNewbie(u: int): (r: Verification)
      ensures r.IsNewbie(u)
      ensures SameExcept(newbie, r.newbie, u) && r.userCorrect == userCorrect
    {
      this.(newbie := newbie[u := true])
    }

    /** ClearNewbie: the flag entry is gone, so the user is no newbie. */
    function ClearNewbie(u: int): (r: Verification)
      ensures u !in r.newbie && !r.IsNewbie(u)
      ensures SameExcept(newbie, r.newbie, u) && r.userCorrect == userCorrect
    {
      this.(newbie := newbie - {u})
    }
  }

  /** A fresh state, as NewState builds it before loading the persisted file. */
  const Empty := Verification(map[], map[])

  lemma NeverSetIsNoNewbie(u: int)
    ensures !Empty.IsNewbie(u) && Empty.TotalCorrect(u) == 0
  {
  }

  /** Reset and ClearNewbie are idempotent. */
  lemma ResetClearIdempotent(v: Verification, u: int)
    ensures v.Reset(u).Reset(u) == v.Reset(u)
    ensures v.ClearNewbie(u).ClearNewbie(u) == v.ClearNewbie(u)
  {
  }

  /** Mutators on different users commute: each touches only its own key. */
  lemma MutatorsOnOthersCommute(v: Verification, u: int, w: int)
    requires u != w
    ensures v.IncCorrect(u).Reset(w) == v.Reset(w).IncCorrect(u)
    ensures v.SetNewbie(u).ClearNewbie(w) == v.ClearNewbie(w).SetNewbie(u)
  {
    assert v.IncCorrect(u).Reset(w).userCorrect == v.Reset(w).IncCorrect(u).userCorrect;
    assert v.SetNewbie(u).ClearNewbie(w).newbie == v.ClearNewbie(w).SetNewbie(u).newbie;
  }

  /** The shared State object; each method is one atomic step under the source's mutex. */
  class State {
    var userCorrect: map<int, int>
    var newbieMap: map<int, bool>

    function View(): Verification
      reads this
    {
      Verification(userCorrect, newbieMap)
    }

    constructor ()
      ensures View() == Empty
    {
      userCorrect := map[];
      newbieMap := map[];
    }

    method InitUser(id: int)
      modifies this
      ensures View() == old(View()).InitUser(id)
    {
      userCorrect := userCorrect[id := 0];
    }

    method IncCorrect(id: int)
      modifies this
      ensures View() == old(View()).IncCorrect(id)
    {
      var n := if id in userCorrect then userCorrect[id] else 0;
      userCorrect := userCorrect[id := n + 1];
    }

    method Reset(id: int)
      modifies this
      ensures View() == old(View()).Reset(id)
    {
      userCorrect := userCorrect - {id};
    }

    method SetNewbie(id: int)
      modifies this
      ensures View() == old(View()).SetNewbie(id)
    {
      newbieMap := newbieMap[id := true];
    }

    method ClearNewbie(id: int)
      modifies this
      ensures View() == old(View()).ClearNewbie(id)
    {
      newbieMap := newbieMap - {id};
    }

    method TotalCorrect(id: int) returns (n: int)
      ensures n == View().TotalCorrect(id)
      ensures id !in userCorrect ==> n == 0
    {
      n := if id in userCorrect then userCorrect[id] else 0;
    }

    method IsNewbie(id: int) returns (b: bool)
      ensures b == View().IsNewbie(id)
      ensures b ==> id in newbieMap
    {
      b := id in newbieMap && newbieMap[id];
    }
  }
}
