/**
 * Properties of whole rating dialogues in internal/bot/rating.go: several updates of the RatingFlow
 * model in a row, as the chat and the moderators' group would drive them.
 */
module RatingProperties {
  import opened Wrappers
  import opened Text
  import opened Reviews
  import opened RatingCodec
  import opened RatingFlow
  import CoreState
  import Utils

  /** The pending review a submit stores for `user` with the given choices, before the store assigns id and time. */
  function Draft(user: Utils.User, anonymous: bool, professor: string, score: int, text: string): Review {
    Review(0, user.id, AuthorName(user), anonymous, professor, score, text, Pending, 0)
  }

  /** "rate_public" on an existing session: the session moves to EnterName as a public review. */
  lemma PublicStep(b: Bot, user: Utils.User, now: int)
    requires user.id in b.sessions
    ensures RateCallback(b, user, "rate_public", now)
              == (b.(sessions := b.sessions[user.id := b.sessions[user.id].(isAnonymous := false, step := EnterName)]), Silent)
  {
    var r := RateCallback(b, user, "rate_public", now);
    assert r.0.sessions == b.sessions[user.id := b.sessions[user.id].(isAnonymous := false, step := EnterName)];
  }

  /** A score button on an existing session: the score is recorded and the session moves to EnterReview. */
  lemma ScoreStep(b: Bot, user: Utils.User, k: int, now: int)
    requires user.id in b.sessions
    requires 1 <= k <= 5
    ensures RateCallback(b, user, ScorePrefix + FormatInt(k), now)
              == (b.(sessions := b.sessions[user.id := b.sessions[user.id].(score := k, step := EnterReview)]), Silent)
  {
    ScoreButtons(k);
    var r := RateCallback(b, user, ScorePrefix + FormatInt(k), now);
    assert r.0.sessions == b.sessions[user.id := b.sessions[user.id].(score := k, step := EnterReview)];
  }

  /** "rate_submit" on an existing session submits exactly that session. */
  lemma SubmitStep(b: Bot, user: Utils.User, now: int)
    requires user.id in b.sessions
    ensures RateCallback(b, user, "rate_submit", now) == Submit(b, user, b.sessions[user.id], now)
  {
    assert b.(sessions := SessionOf(b.sessions, user.id).0) == b;
  }

  /** The bot after a text message; a text outside any dialogue leaves it unchanged. */
  function AfterText(b: Bot, user: Utils.User, text: string): Bot {
    match RateText(b, user, text)
    case NotActive => b
    case Handled(b1, _) => b1
  }

  /** A well-shaped name in the EnterName step: the trimmed name is recorded and the score is asked for. */
  lemma NameStep(b: Bot, user: Utils.User, name: string)
    requires IsActive(b.sessions, user.id) && b.sessions[user.id].step == EnterName
    requires NameShape(TrimSpace(name))
    ensures RateText(b, user, name)
              == Handled(b.(sessions := b.sessions[user.id := b.sessions[user.id].(professor := TrimSpace(name), step := ChooseScore)]), AskScore)
  {
  }

  /** A review of 10 to 1000 bytes in the EnterReview step after a score of 1 to 5: recorded, then previewed. */
  lemma ReviewStep(b: Bot, user: Utils.User, review: string)
    requires IsActive(b.sessions, user.id) && b.sessions[user.id].step == EnterReview
    requires 1 <= b.sessions[user.id].score <= 5
    requires 10 <= ByteLen(TrimSpace(review)) <= 1000
    ensures RateText(b, user, review)
              == Handled(b.(sessions := b.sessions[user.id := b.sessions[user.id].(text := TrimSpace(review), step := Confirm)]),
                         Preview(Stars(b.sessions[user.id].score).value))
  {
  }

  /**
   * The whole public dialogue: /rate, "rate_public", a valid name, a score button 1..5, a review of
   * 10 to 1000 bytes and "rate_submit". Every step is accepted, the preview shows `k` full stars, and
   * at the end the trimmed name and review are stored as a pending review under the next id, the
   * sender has no session, nobody else's session changed, and the moderators get that id's tokens.
   */
  lemma RatingDialogue(b: Bot, user: Utils.User, sentID: int, name: string, k: int, review: string, now: int)
    requires !b.store.IsBlocked(user.id)
    requires NameShape(TrimSpace(name))
    requires 1 <= k <= 5
    requires 10 <= ByteLen(TrimSpace(review)) <= 1000
    ensures var b2 := RateCallback(Rate(b, user, true, sentID), user, "rate_public", now).0;
      var b3 := AfterText(b2, user, name);
      var b4 := RateCallback(b3, user, ScorePrefix + FormatInt(k), now).0;
      var b5 := AfterText(b4, user, review);
      var r := RateCallback(b5, user, "rate_submit", now);
      var id := b.store.nextID;
      && RateText(b2, user, name) == Handled(b3, AskScore)
      && RateText(b4, user, review) == Handled(b5, Preview(Stars(k).value))
      && r.0.store == b.store.Add(Draft(user, false, TrimSpace(name), k, TrimSpace(review)), now).0
      && user.id !in r.0.sessions
      && CoreState.SameExcept(b.sessions, r.0.sessions, user.id)
      && r.1 == ToModerators(id, AdminToken(ApprovePrefix, id), AdminToken(RejectPrefix, id), AdminToken(BlockPrefix, id))
  {
    var u := user.id;
    var b1 := Rate(b, user, true, sentID);
    var s1 := b1.sessions[u];
    PublicStep(b1, user, now);
    var b2 := RateCallback(b1, user, "rate_public", now).0;
    var s2 := s1.(isAnonymous := false, step := EnterName);
    assert b2 == b1.(sessions := b1.sessions[u := s2]);
    NameStep(b2, user, name);
    var s3 := s2.(professor := TrimSpace(name), step := ChooseScore);
    var b3 := b2.(sessions := b2.sessions[u := s3]);
    ScoreStep(b3, user, k, now);
    var b4 := RateCallback(b3, user, ScorePrefix + FormatInt(k), now).0;
    var s4 := s3.(score := k, step := EnterReview);
    assert b4 == b3.(sessions := b3.sessions[u := s4]);
    ReviewStep(b4, user, review);
    var s5 := s4.(text := TrimSpace(review), step := Confirm);
    var b5 := b4.(sessions := b4.sessions[u := s5]);
    SubmitStep(b5, user, now);
    assert b5.store == b.store;
    assert s5 == Session(Confirm, false, TrimSpace(name), k, TrimSpace(review), sentID);
  }

  /** The padded name trims to "Jane Doe"... */
  lemma JaneDoeTrim()
    ensures TrimSpace("  Jane Doe\n") == "Jane Doe"
  {
    var name := "Jane Doe";
    assert "  Jane Doe\n" == "  " + name + "\n";
    assert AllSpace("  ") && AllSpace("\n");
    assert name[0] == 'J' && name[7] == 'e';
    TrimSpacePadded("  ", name, "\n");
  }

  /** ... which has the two-word shape. */
  lemma JaneDoeShape()
    ensures NameShape("Jane Doe")
  {
    var name := "Jane Doe";
    assert AllLetters(name[..4]) && AllRegexSpace(name[4..5]) && AllLetters(name[5..]);
  }

  /** The padded name "  Jane Doe\n" in the EnterName step is accepted and recorded as "Jane Doe". */
  lemma NameExample(b: Bot, user: Utils.User)
    requires IsActive(b.sessions, user.id) && b.sessions[user.id].step == EnterName
    ensures RateText(b, user, "  Jane Doe\n")
              == Handled(b.(sessions := b.sessions[user.id := b.sessions[user.id].(professor := "Jane Doe", step := ChooseScore)]), AskScore)
  {
    JaneDoeTrim();
    JaneDoeShape();
    NameStep(b, user, "  Jane Doe\n");
  }

  /** An approve or reject token with a review id goes to handleAdminAction with that id. */
  lemma ModerationStep(b: Bot, admin: Utils.User, prefix: string, st: Status, id: int, now: int)
    requires (prefix == ApprovePrefix && st == Approved) || (prefix == RejectPrefix && st == Rejected)
    ensures RateCallback(b, admin, AdminToken(prefix, id), now)
              == Moderate(b.(sessions := SessionOf(b.sessions, admin.id).0), Some(id), st)
  {
    AdminTokenRoundTrip(prefix, id);
    AdminTokensDistinct(id);
  }

  /** A block token with a review id goes to handleAdminBlock with that id. */
  lemma BlockStep(b: Bot, admin: Utils.User, id: int, now: int)
    ensures RateCallback(b, admin, AdminToken(BlockPrefix, id), now)
              == (BlockAuthor(b.(sessions := SessionOf(b.sessions, admin.id).0), Some(id)), Silent)
  {
    AdminTokenRoundTrip(BlockPrefix, id);
    AdminTokensDistinct(id);
  }

  /** What submitReview appends: the draft under the next id, and the ids before it are all smaller. */
  lemma Submitted(b: Bot, author: Utils.User, s: Session, now: int)
    requires b.store.Valid()
    ensures var x := Draft(author, s.isAnonymous, s.professor, s.score, s.text).(id := b.store.nextID, createdAt := now);
      && Submit(b, author, s, now).0.store == b.store.(reviews := b.store.reviews + [x], nextID := b.store.nextID + 1)
      && Submit(b, author, s, now).0.store.Valid()
      && forall j :: 0 <= j < |b.store.reviews| ==> b.store.reviews[j].id != x.id
  {
    AddKeepsValid(b.store, Draft(author, s.isAnonymous, s.professor, s.score, s.text), now);
  }

  /** Moderating the newest review, whose id no earlier review has: only its status changes and its author is told. */
  lemma ModerateNewest(b: Bot, rs: seq<Review>, x: Review, st: Status)
    requires b.store.reviews == rs + [x]
    requires forall j :: 0 <= j < |rs| ==> rs[j].id != x.id
    ensures Moderate(b, Some(x.id), st)
              == (b.(store := b.store.(reviews := rs + [x.(status := st)])), ToAuthor(x.userID, st, x.professor))
  {
    NewestReview(rs, x, st);
  }

  /**
   * A submitted review and then the moderators' approve (or reject) button: the author is told the
   * verdict, the new review is the last one with that status and nothing else in the store changed;
   * an approved review is listed at the end of the approved view. The moderator's press also leaves
   * a fresh session behind for the moderator, since the handler fetches one before looking at the data.
   */
  lemma ModerationRoundTrip(b: Bot, author: Utils.User, s: Session, now: int, admin: Utils.User, prefix: string, st: Status)
    requires b.store.Valid()
    requires (prefix == ApprovePrefix && st == Approved) || (prefix == RejectPrefix && st == Rejected)
    ensures var id := b.store.nextID;
      var r := RateCallback(Submit(b, author, s, now).0, admin, AdminToken(prefix, id), now);
      var x := Draft(author, s.isAnonymous, s.professor, s.score, s.text).(id := id, createdAt := now, status := st);
      && r.1 == ToAuthor(author.id, st, s.professor)
      && r.0.store == b.store.(reviews := b.store.reviews + [x], nextID := id + 1)
      && r.0.store.Valid()
      && (st == Approved ==> ApprovedOnly(r.0.store.reviews) == ApprovedOnly(b.store.reviews) + [x])
      && admin.id in r.0.sessions
  {
    var id := b.store.nextID;
    var added := Draft(author, s.isAnonymous, s.professor, s.score, s.text).(id := id, createdAt := now);
    var b1 := Submit(b, author, s, now).0;
    Submitted(b, author, s, now);
    ModerationStep(b1, admin, prefix, st, id, now);
    var b2 := b1.(sessions := SessionOf(b1.sessions, admin.id).0);
    ModerateNewest(b2, b.store.reviews, added, st);
    UpdateKeepsValid(b1.store, id, st);
    NewestReview(b.store.reviews, added, st);
    ApprovedSnoc(b.store.reviews, added.(status := st));
  }

  /**
   * The score button's data is read as any integer, so a review can be submitted with a score outside
   * 0..5. Approving it works like any other approval, but from then on the page holding it cannot be
   * formatted: with no earlier approved reviews, /ratings panics instead of listing.
   */
  lemma OutOfRangeScoreBreaksList(b: Bot, author: Utils.User, s: Session, now: int, admin: Utils.User)
    requires b.store.Valid()
    requires ApprovedOnly(b.store.reviews) == []
    requires s.score < 0 || s.score > 5
    ensures var r := RateCallback(Submit(b, author, s, now).0, admin, AdminToken(ApprovePrefix, b.store.nextID), now);
      Ratings(r.0, true) == Some(ListPanicked)
  {
    var id := b.store.nextID;
    var x := Draft(author, s.isAnonymous, s.professor, s.score, s.text).(id := id, createdAt := now, status := Approved);
    ModerationRoundTrip(b, author, s, now, admin, ApprovePrefix, Approved);
    var b2 := RateCallback(Submit(b, author, s, now).0, admin, AdminToken(ApprovePrefix, id), now).0;
    assert ApprovedOnly(b2.store.reviews) == [x];
    LoneReviewPanics(x, 0, "");
  }

  /**
   * A submitted review and then the block button: the review is rejected, its author is on the
   * blocked list, the approved view is as before, and the author's next /rate changes nothing.
   */
  lemma BlockRoundTrip(b: Bot, author: Utils.User, s: Session, now: int, admin: Utils.User, sentID: int)
    requires b.store.Valid()
    ensures var id := b.store.nextID;
      var r := RateCallback(Submit(b, author, s, now).0, admin, AdminToken(BlockPrefix, id), now);
      var x := Draft(author, s.isAnonymous, s.professor, s.score, s.text).(id := id, createdAt := now, status := Rejected);
      && r.1 == Silent
      && r.0.store.reviews == b.store.reviews + [x]
      && r.0.store.IsBlocked(author.id)
      && r.0.store.Valid()
      && ApprovedOnly(r.0.store.reviews) == ApprovedOnly(b.store.reviews)
      && Rate(r.0, author, true, sentID) == r.0
  {
    var id := b.store.nextID;
    var added := Draft(author, s.isAnonymous, s.professor, s.score, s.text).(id := id, createdAt := now);
    var b1 := Submit(b, author, s, now).0;
    Submitted(b, author, s, now);
    BlockStep(b1, admin, id, now);
    NewestReview(b.store.reviews, added, Rejected);
    UpdateKeepsValid(b1.store, id, Rejected);
    var after := b1.store.UpdateStatus(id, Rejected).0;
    BlockKeepsValid(after, author.id);
    var x := added.(status := Rejected);
    ApprovedConcat(b.store.reviews, [x]);
    assert ApprovedOnly([x]) == [];
  }

  /**
   * "rate_submit" from a user without a session (a stale or repeated preview button) still stores
   * a review: the fresh session's empty name, score 0 and empty text become a pending review.
   */
  lemma SubmitWithoutSession(b: Bot, user: Utils.User, now: int)
    requires user.id !in b.sessions
    ensures var r := RateCallback(b, user, "rate_submit", now);
      var id := b.store.nextID;
      && r.0.store.reviews == b.store.reviews + [Draft(user, false, "", 0, "").(id := id, createdAt := now)]
      && r.1 == ToModerators(id, AdminToken(ApprovePrefix, id), AdminToken(RejectPrefix, id), AdminToken(BlockPrefix, id))
      && r.0.sessions == b.sessions
  {
    var b1 := b.(sessions := b.sessions[user.id := NewSession]);
    assert WithoutSession(b1.sessions, user.id) == b.sessions;
  }

  /**
   * Cancelling ends the dialogue whatever its step: the store is untouched, the next text goes past
   * the rating input, and a later "rate_submit" would start again from an empty session.
   */
  lemma CancelEndsDialogue(b: Bot, user: Utils.User, text: string, now: int)
    ensures var b1 := RateCallback(b, user, "rate_cancel", now).0;
      && b1.store == b.store
      && RateText(b1, user, text) == NotActive
      && PrivateText(b1, user, text) == PassedOn
      && RateCallback(b1, user, "rate_submit", now).0.store.reviews
           == b.store.reviews + [Draft(user, false, "", 0, "").(id := b.store.nextID, createdAt := now)]
  {
    var b1 := RateCallback(b, user, "rate_cancel", now).0;
    assert user.id !in b1.sessions;
    SubmitWithoutSession(b1, user, now);
  }

  /**
   * The search button and then a text: the text is taken as the query (trimmed), the first page of
   * its results is shown and the marker is gone, so the next text is passed on.
   */
  lemma SearchRoundTrip(b: Bot, user: Utils.User, text: string, next: string)
    ensures var b1 := RatingsCallback(b, user, "ratings_search").0;
      var q := TrimSpace(text);
      var t := PrivateText(b1, user, text);
      && t == SearchInput(Searched(b.(sessions := WithoutSession(b.sessions, user.id)), ShowPage(Search(b.store.reviews, q), 0, q)))
      && PrivateText(t.search.bot, user, next) == PassedOn
  {
    var b1 := RatingsCallback(b, user, "ratings_search").0;
    assert b1.sessions[user.id] == SearchMode;
    assert !IsActive(b1.sessions, user.id);
    assert WithoutSession(b1.sessions, user.id) == WithoutSession(b.sessions, user.id);
  }

  /** No callback breaks the store's invariant: ids stay unique and increasing, nobody is blocked twice. */
  lemma CallbackKeepsStoreValid(b: Bot, user: Utils.User, data: string, now: int)
    requires b.store.Valid()
    ensures RateCallback(b, user, data, now).0.store.Valid()
    ensures RatingsCallback(b, user, data).0.store.Valid()
  {
    CallbackKindsDisjoint(data);
    var (ss, s) := SessionOf(b.sessions, user.id);
    var b1 := b.(sessions := ss);
    if data == "rate_submit" {
      assert RateCallback(b, user, data, now) == Submit(b1, user, s, now);
      AddKeepsValid(b.store, Draft(user, s.isAnonymous, s.professor, s.score, s.text), now);
    } else if HasPrefix(data, ApprovePrefix) {
      var p := ParseAdmin(ApprovePrefix, data);
      assert RateCallback(b, user, data, now) == Moderate(b1, p, Approved);
      if p.Some? {
        UpdateKeepsValid(b.store, p.value, Approved);
      }
    } else if HasPrefix(data, RejectPrefix) {
      var p := ParseAdmin(RejectPrefix, data);
      assert RateCallback(b, user, data, now) == Moderate(b1, p, Rejected);
      if p.Some? {
        UpdateKeepsValid(b.store, p.value, Rejected);
      }
    } else if HasPrefix(data, BlockPrefix) {
      var p := ParseAdmin(BlockPrefix, data);
      assert RateCallback(b, user, data, now) == (BlockAuthor(b1, p), Silent);
      if p.Some? && Get(b.store.reviews, p.value).Some? {
        UpdateKeepsValid(b.store, p.value, Rejected);
        BlockKeepsValid(b.store.UpdateStatus(p.value, Rejected).0, Get(b.store.reviews, p.value).value.userID);
      }
    } else {
      assert RateCallback(b, user, data, now).0.store == b.store;
    }
  }

}
