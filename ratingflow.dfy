/**
 * The rating dialogue of internal/bot/rating.go: the per-user session map and what each handler
 * does to it and to the review store. Bot is the value of the two; the functions below give the
 * effect of one update, and class RatingHandler performs it in place.
 */
module RatingFlow {
  import opened Wrappers
  import opened Text
  import opened Reviews
  import opened RatingCodec
  import CoreState
  import Utils

  datatype Step = StepNone | ChooseType | EnterName | ChooseScore | EnterReview | Confirm

  datatype Session = Session(step: Step, isAnonymous: bool, professor: string, score: int, text: string, messageID: int)

  /** The session getSession creates. */
  const NewSession := Session(StepNone, false, "", 0, "", 0)

  /** The search-mode marker ratings_search installs: no rating step and message id -1. */
  const SearchMode := Session(StepNone, false, "", 0, "", -1)

  type Sessions = map<int, Session>

  /** getSession: the user's session, created as NewSession when absent. */
  function SessionOf(ss: Sessions, u: int): (r: (Sessions, Session))
    ensures u in r.0 && r.0[u] == r.1
    ensures u in ss ==> r == (ss, ss[u])
    ensures u !in ss ==> r.1 == NewSession && r.0 == ss[u := NewSession]
    ensures CoreState.SameExcept(ss, r.0, u)
  {
    if u in ss then (ss, ss[u]) else (ss[u := NewSession], NewSession)
  }

  /** clearSession: the user's entry is removed and no other. */
  function WithoutSession(ss: Sessions, u: int): (r: Sessions)
    ensures u !in r && CoreState.SameExcept(ss, r, u)
  {
    ss - {u}
  }

  /** hasActiveSession: a session exists and is past StepNone. */
  predicate IsActive(ss: Sessions, u: int) {
    u in ss && ss[u].step != StepNone
  }

  datatype Bot = Bot(sessions: Sessions, store: Store)

  /** What a callback leads to besides the state change and the acknowledgement. */
  datatype Notice =
    | Silent                                                                    // only the sender's own chat is edited
    | ToModerators(reviewID: int, approve: string, reject: string, block: string)  // the admin chat gets the review with three buttons
    | ToAuthor(author: int, status: Status, professor: string)                     // the author hears the moderation verdict
    | Panicked                                                                  // the handler panicked after the state change

  // ---------------------------------------------------------------- /rate

  /**
   * HandleRate: outside a private chat, or for a blocked user, nothing changes; otherwise the
   * user's session (kept if present) moves to ChooseType and remembers the prompt's message id.
   */
  function Rate(b: Bot, user: Utils.User, isPrivate: bool, sentID: int): (r: Bot)
    ensures !isPrivate || b.store.IsBlocked(user.id) ==> r == b
    ensures r.store == b.store && CoreState.SameExcept(b.sessions, r.sessions, user.id)
    ensures isPrivate && !b.store.IsBlocked(user.id) ==>
              user.id in r.sessions && r.sessions[user.id].step == ChooseType && r.sessions[user.id].messageID == sentID
              && r.sessions[user.id] == SessionOf(b.sessions, user.id).1.(step := ChooseType, messageID := sentID)
  {
    if !isPrivate || b.store.IsBlocked(user.id) then b
    else
      var (ss, s) := SessionOf(b.sessions, user.id);
      b.(sessions := ss[user.id := s.(step := ChooseType, messageID := sentID)])
  }

  // ---------------------------------------------------------------- callbacks

  /** The display name stored with a review: the username, or the first name when there is none. */
  function AuthorName(user: Utils.User): (n: string)
    ensures user.username != "" ==> n == user.username
    ensures user.username == "" ==> n == user.firstName
  {
    if user.username == "" then user.firstName else user.username
  }

  /**
   * submitReview: the session's choices become a pending review of the sender, the store assigns
   * its id, the session is cleared and the moderators get the three tokens for that id. The
   * moderators' message repeats the star character `score` times, which panics when it is negative.
   */
  function Submit(b: Bot, user: Utils.User, s: Session, now: int): (r: (Bot, Notice))
    ensures var (st, id) := b.store.Add(Review(0, user.id, AuthorName(user), s.isAnonymous, s.professor, s.score, s.text, Pending, 0), now);
      && r.0 == Bot(WithoutSession(b.sessions, user.id), st)
      && (s.score >= 0 ==> r.1 == ToModerators(id, AdminToken(ApprovePrefix, id), AdminToken(RejectPrefix, id), AdminToken(BlockPrefix, id)))
      && (s.score < 0 ==> r.1 == Panicked)
  {
    var review := Review(0, user.id, AuthorName(user), s.isAnonymous, s.professor, s.score, s.text, Pending, 0);
    var (st, id) := b.store.Add(review, now);
    var notice := if s.score < 0 then Panicked
                  else ToModerators(id, AdminToken(ApprovePrefix, id), AdminToken(RejectPrefix, id), AdminToken(BlockPrefix, id));
    (Bot(WithoutSession(b.sessions, user.id), st), notice)
  }

  /**
   * handleAdminAction: with a parsed id of an existing review, that review's status is set and its
   * author is told the verdict; an unparsable token or an unknown id changes nothing.
   */
  function Moderate(b: Bot, parsed: Option<int>, st: Status): (r: (Bot, Notice))
    ensures parsed.None? || Get(b.store.reviews, parsed.value).None? ==> r == (b, Silent)
    ensures parsed.Some? && Get(b.store.reviews, parsed.value).Some? ==>
              var rev := Get(b.store.reviews, parsed.value).value;
              r == (b.(store := b.store.UpdateStatus(parsed.value, st).0), ToAuthor(rev.userID, st, rev.professor))
  {
    match parsed
    case None => (b, Silent)
    case Some(id) =>
      match Get(b.store.reviews, id)
      case None => (b, Silent)
      case Some(rev) => (b.(store := b.store.UpdateStatus(id, st).0), ToAuthor(rev.userID, st, rev.professor))
  }

  /** handleAdminBlock: the review is rejected and then its author blocked. */
  function BlockAuthor(b: Bot, parsed: Option<int>): (r: Bot)
    ensures parsed.None? || Get(b.store.reviews, parsed.value).None? ==> r == b
    ensures parsed.Some? && Get(b.store.reviews, parsed.value).Some? ==>
              r == b.(store := b.store.UpdateStatus(parsed.value, Rejected).0.BlockUser(Get(b.store.reviews, parsed.value).value.userID))
  {
    match parsed
    case None => b
    case Some(id) =>
      match Get(b.store.reviews, id)
      case None => b
      case Some(rev) => b.(store := b.store.UpdateStatus(id, Rejected).0.BlockUser(rev.userID))
  }

  /**
   * The branches of HandleRateCallback and HandleRatingsCallback never overlap: no literal starts
   * with one of the prefixes and no prefix starts another, so the order of the tests does not matter.
   */
  lemma CallbackKindsDisjoint(data: string)
    ensures HasPrefix(data, ScorePrefix) || HasPrefix(data, ApprovePrefix) || HasPrefix(data, RejectPrefix)
            || HasPrefix(data, BlockPrefix) ==>
              data !in {"rate_cancel", "rate_public", "rate_anonymous", "rate_submit"}
    ensures HasPrefix(data, ScorePrefix) ==>
              !HasPrefix(data, ApprovePrefix) && !HasPrefix(data, RejectPrefix) && !HasPrefix(data, BlockPrefix)
    ensures HasPrefix(data, ApprovePrefix) ==> !HasPrefix(data, RejectPrefix) && !HasPrefix(data, BlockPrefix)
    ensures HasPrefix(data, RejectPrefix) ==> !HasPrefix(data, BlockPrefix)
    ensures HasPrefix(data, PagePrefix) ==> data != "ratings_search"
  {
    if HasPrefix(data, ScorePrefix) {
      assert data[5] == 's' && data[6] == 'c';
    }
    if HasPrefix(data, ApprovePrefix) {
      assert data[5] == 'a' && data[6] == 'p';
    }
    if HasPrefix(data, RejectPrefix) {
      assert data[5] == 'r';
    }
    if HasPrefix(data, BlockPrefix) {
      assert data[5] == 'b';
    }
    if HasPrefix(data, PagePrefix) {
      assert data[8] == 'p';
    }
  }

  /**
   * HandleRateCallback on the callback text `data`. The sender's session is fetched (and so
   * created) first, whatever the data, and no branch looks at the current step.
   */
  function RateCallback(b: Bot, user: Utils.User, data: string, now: int): (r: (Bot, Notice))
    ensures CoreState.SameExcept(b.sessions, r.0.sessions, user.id)
    ensures data == "rate_cancel" ==> r == (b.(sessions := WithoutSession(b.sessions, user.id)), Silent)
    ensures data == "rate_public" || data == "rate_anonymous" ==>
              r.0.store == b.store && r.1 == Silent && user.id in r.0.sessions
              && r.0.sessions[user.id] == SessionOf(b.sessions, user.id).1.(isAnonymous := data == "rate_anonymous", step := EnterName)
    ensures HasPrefix(data, ScorePrefix) ==>
              r.0.store == b.store && r.1 == Silent && user.id in r.0.sessions
              && r.0.sessions[user.id] == SessionOf(b.sessions, user.id).1.(score := ScoreOf(data), step := EnterReview)
    ensures data == "rate_submit" ==>
              r == Submit(b.(sessions := SessionOf(b.sessions, user.id).0), user, SessionOf(b.sessions, user.id).1, now)
    ensures HasPrefix(data, ApprovePrefix) ==>
              r == Moderate(b.(sessions := SessionOf(b.sessions, user.id).0), ParseAdmin(ApprovePrefix, data), Approved)
    ensures HasPrefix(data, RejectPrefix) ==>
              r == Moderate(b.(sessions := SessionOf(b.sessions, user.id).0), ParseAdmin(RejectPrefix, data), Rejected)
    ensures HasPrefix(data, BlockPrefix) ==>
              r == (BlockAuthor(b.(sessions := SessionOf(b.sessions, user.id).0), ParseAdmin(BlockPrefix, data)), Silent)
    ensures data != "rate_cancel" && data != "rate_submit" ==> user.id in r.0.sessions
  {
    CallbackKindsDisjoint(data);
    var (ss, s) := SessionOf(b.sessions, user.id);
    var b1 := b.(sessions := ss);
    assert WithoutSession(ss, user.id) == WithoutSession(b.sessions, user.id);
    if data == "rate_cancel" then (b.(sessions := WithoutSession(ss, user.id)), Silent)
    else if data == "rate_public" then (b.(sessions := ss[user.id := s.(isAnonymous := false, step := EnterName)]), Silent)
    else if data == "rate_anonymous" then (b.(sessions := ss[user.id := s.(isAnonymous := true, step := EnterName)]), Silent)
    else if HasPrefix(data, ScorePrefix) then
      (b.(sessions := ss[user.id := s.(score := ScoreOf(data), step := EnterReview)]), Silent)
    else if data == "rate_submit" then Submit(b1, user, s, now)
    else if HasPrefix(data, ApprovePrefix) then Moderate(b1, ParseAdmin(ApprovePrefix, data), Approved)
    else if HasPrefix(data, RejectPrefix) then Moderate(b1, ParseAdmin(RejectPrefix, data), Rejected)
    else if HasPrefix(data, BlockPrefix) then (BlockAuthor(b1, ParseAdmin(BlockPrefix, data)), Silent)
    else (b1, Silent)
  }

  // ---------------------------------------------------------------- text input

  datatype Reply = InvalidName | AskScore | ReviewTooShort | ReviewTooLong | Preview(stars: string) | Panic

  /** NotActive: HandleRateText returned false. Handled: the bot afterwards and the reply (Panic: it panicked there). */
  datatype TextResult = NotActive | Handled(bot: Bot, reply: Reply)

  /** The EnterName step of HandleRateText: a name matching the regular expression is recorded, otherwise it is refused. */
  function NameInput(b: Bot, u: int, s: Session, t: string): (r: TextResult)
    ensures NameShape(t) ==> r == Handled(b.(sessions := b.sessions[u := s.(professor := t, step := ChooseScore)]), AskScore)
    ensures !NameShape(t) ==> r == Handled(b, InvalidName)
    ensures r.Handled? && r.bot.store == b.store && CoreState.SameExcept(b.sessions, r.bot.sessions, u)
  {
    MatchesNameIffShape(t);
    if MatchesName(t) then Handled(b.(sessions := b.sessions[u := s.(professor := t, step := ChooseScore)]), AskScore)
    else Handled(b, InvalidName)
  }

  /** The EnterReview step of HandleRateText: the byte length is checked, then the text recorded and previewed. */
  function ReviewInput(b: Bot, u: int, s: Session, t: string): (r: TextResult)
    ensures ByteLen(t) < 10 ==> r == Handled(b, ReviewTooShort)
    ensures ByteLen(t) > 1000 ==> r == Handled(b, ReviewTooLong)
    ensures 10 <= ByteLen(t) <= 1000 ==>
              r.Handled? && r.bot == b.(sessions := b.sessions[u := s.(text := t, step := Confirm)])
              && (0 <= s.score <= 5 ==> r.reply == Preview(Stars(s.score).value))
              && (s.score < 0 || s.score > 5 ==> r.reply == Panic)
    ensures r.Handled? && r.bot.store == b.store && CoreState.SameExcept(b.sessions, r.bot.sessions, u)
  {
    var check := CheckLength(t);
    if check == TooShort then Handled(b, ReviewTooShort)
    else if check == TooLong then Handled(b, ReviewTooLong)
    else
      var b1 := b.(sessions := b.sessions[u := s.(text := t, step := Confirm)]);
      var stars := Stars(s.score);
      if stars.Some? then Handled(b1, Preview(stars.value)) else Handled(b1, Panic)
  }

  /**
   * HandleRateText on the trimmed text: a name in EnterName moves to ChooseScore, a review of 10 to
   * 1000 bytes in EnterReview moves to Confirm and shows the preview (whose star string panics for a
   * score outside 0..5), and text in any other active step panics.
   */
  function RateText(b: Bot, user: Utils.User, text: string): (r: TextResult)
    ensures !IsActive(b.sessions, user.id) <==> r.NotActive?
    ensures r.Handled? ==> r.bot.store == b.store && CoreState.SameExcept(b.sessions, r.bot.sessions, user.id)
    ensures IsActive(b.sessions, user.id) && b.sessions[user.id].step == EnterName ==>
              var s := b.sessions[user.id];
              (NameShape(TrimSpace(text)) ==> r == Handled(b.(sessions := b.sessions[user.id := s.(professor := TrimSpace(text), step := ChooseScore)]), AskScore))
              && (!NameShape(TrimSpace(text)) ==> r == Handled(b, InvalidName))
    ensures IsActive(b.sessions, user.id) && b.sessions[user.id].step == EnterReview ==>
              var s := b.sessions[user.id];
              (ByteLen(TrimSpace(text)) < 10 ==> r == Handled(b, ReviewTooShort))
              && (ByteLen(TrimSpace(text)) > 1000 ==> r == Handled(b, ReviewTooLong))
              && (10 <= ByteLen(TrimSpace(text)) <= 1000 ==>
                    r.Handled? && r.bot == b.(sessions := b.sessions[user.id := s.(text := TrimSpace(text), step := Confirm)])
                    && (0 <= s.score <= 5 ==> r.reply == Preview(Stars(s.score).value))
                    && (s.score < 0 || s.score > 5 ==> r.reply == Panic))
    ensures IsActive(b.sessions, user.id) && b.sessions[user.id].step in {ChooseType, ChooseScore, Confirm} ==>
              r == Handled(b, Panic)
  {
    var u := user.id;
    if !IsActive(b.sessions, u) then NotActive
    else
      var s := b.sessions[u];
      var t := TrimSpace(text);
      match s.step
      case EnterName => NameInput(b, u, s, t)
      case EnterReview => ReviewInput(b, u, s, t)
      case _ => Handled(b, Panic)
  }

  // ---------------------------------------------------------------- ratings list

  /** HandleRatings: in a private chat, the first page of all approved reviews. */
  function Ratings(b: Bot, isPrivate: bool): (v: Option<ListView>)
    ensures !isPrivate <==> v.None?
    ensures isPrivate ==> v.value == ShowPage(ApprovedOnly(b.store.reviews), 0, "")
  {
    if !isPrivate then None
    else
      SearchEmptyQuery(b.store.reviews);
      Some(ShowPage(Listing(b.store, ""), 0, ""))
  }

  /**
   * HandleRatingsCallback: `ratings_search` replaces the sender's session by the search marker;
   * a `ratings_page_` tag shows the page it names; anything else changes nothing.
   */
  function RatingsCallback(b: Bot, user: Utils.User, data: string): (r: (Bot, Option<ListView>))
    ensures data == "ratings_search" ==> r == (b.(sessions := b.sessions[user.id := SearchMode]), None)
    ensures data != "ratings_search" ==> r.0 == b
    ensures HasPrefix(data, PagePrefix) ==>
              var (page, search) := ParsePage(data);
              r.1 == Some(ShowPage(Search(b.store.reviews, search), page, search))
    ensures data != "ratings_search" && !HasPrefix(data, PagePrefix) ==> r.1.None?
  {
    CallbackKindsDisjoint(data);
    if data == "ratings_search" then (b.(sessions := b.sessions[user.id := SearchMode]), None)
    else if HasPrefix(data, PagePrefix) then
      var (page, search) := ParsePage(data);
      (b, Some(ShowPage(Listing(b.store, search), page, search)))
    else (b, None)
  }

  datatype SearchResult = NotSearching | Searched(bot: Bot, view: ListView)

  /**
   * HandleSearchText: only a session marked with message id -1 is a search; it is cleared and the
   * first page of the results for the trimmed text is shown.
   */
  function SearchText(b: Bot, user: Utils.User, text: string): (r: SearchResult)
    ensures r.Searched? <==> user.id in b.sessions && b.sessions[user.id].messageID == -1
    ensures r.Searched? ==> r.bot == b.(sessions := WithoutSession(b.sessions, user.id))
                            && r.view == ShowPage(Search(b.store.reviews, TrimSpace(text)), 0, TrimSpace(text))
  {
    if user.id !in b.sessions || b.sessions[user.id].messageID != -1 then NotSearching
    else
      var q := TrimSpace(text);
      Searched(b.(sessions := WithoutSession(b.sessions, user.id)), ShowPage(Listing(b.store, q), 0, q))
  }

  // ---------------------------------------------------------------- dispatch

  /** Where a private text message goes: the rating input first, then the search input, then the other handlers. */
  datatype TextRoute = RatingInput(rating: TextResult) | SearchInput(search: SearchResult) | PassedOn

  function PrivateText(b: Bot, user: Utils.User, text: string): (r: TextRoute)
    ensures IsActive(b.sessions, user.id) ==> r == RatingInput(RateText(b, user, text))
    ensures !IsActive(b.sessions, user.id) && user.id in b.sessions && b.sessions[user.id].messageID == -1 ==>
              r == SearchInput(SearchText(b, user, text))
    ensures r.PassedOn? <==> !IsActive(b.sessions, user.id) && (user.id !in b.sessions || b.sessions[user.id].messageID != -1)
  {
    match RateText(b, user, text)
    case Handled(_, _) => RatingInput(RateText(b, user, text))
    case NotActive =>
      match SearchText(b, user, text)
      case Searched(_, _) => SearchInput(SearchText(b, user, text))
      case NotSearching => PassedOn
  }

  /** The buttons registered with HandleRateCallback by their unique tag. */
  const RateButtons: seq<string> := ["rate_cancel", "rate_public", "rate_anonymous", "rate_submit",
                                     "rate_score_1", "rate_score_2", "rate_score_3", "rate_score_4", "rate_score_5"]

  datatype Route = ToRateCallback(data: string) | ToRatingsCallback(data: string) | NotRouted

  /**
   * RegisterHandlers: a registered unique tag reaches its handler; every other callback reaches the
   * generic handler, which sends the three moderation prefixes to HandleRateCallback, page tags to
   * HandleRatingsCallback and drops the rest. Each handler then reads Data, or Unique when Data is empty.
   */
  function RouteCallback(cb: Callback): (r: Route)
    ensures cb.unique in RateButtons ==> r == ToRateCallback(CallbackID(cb))
    ensures r.ToRateCallback? || r.ToRatingsCallback? ==> r.data == CallbackID(cb)
    ensures cb.unique !in RateButtons && cb.unique != "ratings_search" ==>
              (r.ToRateCallback? <==> HasPrefix(CallbackID(cb), ApprovePrefix) || HasPrefix(CallbackID(cb), RejectPrefix)
                                      || HasPrefix(CallbackID(cb), BlockPrefix))
    ensures cb.unique == "ratings_search" ==> r == ToRatingsCallback(CallbackID(cb))
    ensures cb.unique !in RateButtons && cb.unique != "ratings_search" ==>
              (r.ToRatingsCallback? <==> HasPrefix(CallbackID(cb), PagePrefix))
    ensures cb.unique !in RateButtons && cb.unique != "ratings_search" && CallbackID(cb) == "" ==> r == NotRouted
  {
    var id := CallbackID(cb);
    CallbackKindsDisjoint(id);
    if cb.unique in RateButtons then ToRateCallback(id)
    else if cb.unique == "ratings_search" then ToRatingsCallback(id)
    else if id == "" then NotRouted
    else if HasPrefix(id, ApprovePrefix) || HasPrefix(id, RejectPrefix) || HasPrefix(id, BlockPrefix) then ToRateCallback(id)
    else if HasPrefix(id, PagePrefix) then ToRatingsCallback(id)
    else NotRouted
  }

  /** The score buttons the handler registers carry only the scores 1 to 5. */
  lemma RegisteredScoresInRange(unique: string)
    requires unique in RateButtons && HasPrefix(unique, ScorePrefix)
    ensures 1 <= ScoreOf(unique) <= 5
  {
    CallbackKindsDisjoint(unique);
    var k :| 0 <= k < |RateButtons| && RateButtons[k] == unique;
    assert 4 <= k;
    ScoreButtons(k - 3);
    assert unique == ScorePrefix + FormatInt(k - 3);
  }

  /** Every moderation token the submit step writes reaches HandleRateCallback unchanged. */
  lemma AdminTokensRouted(prefix: string, id: int)
    requires prefix in {ApprovePrefix, RejectPrefix, BlockPrefix}
    ensures RouteCallback(Callback(AdminToken(prefix, id), "")) == ToRateCallback(AdminToken(prefix, id))
  {
    assert forall k :: 0 <= k < |RateButtons| ==> RateButtons[k] != "";
  }

  /** Every navigation tag of the list reaches HandleRatingsCallback unchanged. */
  lemma PageTokensRouted(page: int, search: string)
    ensures RouteCallback(Callback("", PageToken(page, search))) == ToRatingsCallback(PageToken(page, search))
  {
    var p := PageToken(page, search);
    assert p[5] == 'g' && p[8] == 'p';
    assert forall k :: 0 <= k < |RateButtons| ==> RateButtons[k][5] != 'g';
    assert p !in RateButtons;
    assert "ratings_search"[8] == 's';
  }

  /**
   * The navigation buttons are not registered, so the above takes the library to hand their Unique
   * to the generic handler. If it passed the raw data instead, a form feed and then the tag with an
   * empty Unique, the tag would match no prefix and nothing would handle it.
   */
  lemma PageTokenRawDataUnrouted(page: int, search: string)
    ensures RouteCallback(Callback("\U{C}" + PageToken(page, search), "")) == NotRouted
  {
    var raw := "\U{C}" + PageToken(page, search);
    assert raw[0] == '\U{C}';
    assert forall k :: 0 <= k < |RateButtons| ==> RateButtons[k] != "";
  }

  // ---------------------------------------------------------------- the handler object

  /** The RatingHandler: the session map, and the review store it shares with nobody else. */
  class RatingHandler {
    const store: RatingStore
    var sessions: Sessions

    function Model(): Bot
      reads this, store
    {
      Bot(sessions, store.View())
    }

    /** NewRatingHandler with a store not yet loaded from disk. */
    constructor ()
      ensures Model() == Bot(map[], Fresh) && fresh(store)
    {
      store := new RatingStore();
      sessions := map[];
    }

    method GetSession(u: int) returns (s: Session)
      modifies this
      ensures (sessions, s) == SessionOf(old(sessions), u)
    {
      if u in sessions {
        return sessions[u];
      }
      s := NewSession;
      sessions := sessions[u := s];
    }

    method ClearSession(u: int)
      modifies this
      ensures sessions == WithoutSession(old(sessions), u)
    {
      sessions := sessions - {u};
    }

    method HasActiveSession(u: int) returns (active: bool)
      ensures active == IsActive(sessions, u)
    {
      active := IsActive(sessions, u);
    }

    method HandleRate(user: Utils.User, isPrivate: bool, sentID: int)
      modifies this
      ensures Model() == Rate(old(Model()), user, isPrivate, sentID)
    {
      if !isPrivate {
        return;
      }
      var blocked := store.IsBlocked(user.id);
      if blocked {
        return;
      }
      var s := GetSession(user.id);
      s := s.(step := ChooseType);
      sessions := sessions[user.id := s];
      s := s.(messageID := sentID);
      sessions := sessions[user.id := s];
    }

    method HandleRateCallback(user: Utils.User, data: string, now: int) returns (n: Notice)
      modifies this, store
      ensures (Model(), n) == RateCallback(old(Model()), user, data, now)
    {
      CallbackKindsDisjoint(data);
      var s := GetSession(user.id);
      if data == "rate_cancel" {
        ClearSession(user.id);
        return Silent;
      } else if data == "rate_public" {
        sessions := sessions[user.id := s.(isAnonymous := false, step := EnterName)];
        return Silent;
      } else if data == "rate_anonymous" {
        sessions := sessions[user.id := s.(isAnonymous := true, step := EnterName)];
        return Silent;
      } else if HasPrefix(data, ScorePrefix) {
        var score := AtoiOrZero(data[|ScorePrefix|..]);
        sessions := sessions[user.id := s.(score := score, step := EnterReview)];
        return Silent;
      } else if data == "rate_submit" {
        n := SubmitReview(user, s, now);
      } else if HasPrefix(data, ApprovePrefix) {
        n := HandleAdminAction(data, Approved);
      } else if HasPrefix(data, RejectPrefix) {
        n := HandleAdminAction(data, Rejected);
      } else if HasPrefix(data, BlockPrefix) {
        HandleAdminBlock(data);
        n := Silent;
      } else {
        n := Silent;
      }
    }

    method SubmitReview(user: Utils.User, s: Session, now: int) returns (n: Notice)
      modifies this, store
      ensures (Model(), n) == Submit(old(Model()), user, s, now)
    {
      var username := user.username;
      if username == "" {
        username := user.firstName;
      }
      var review := Review(0, user.id, username, s.isAnonymous, s.professor, s.score, s.text, Pending, 0);
      var id := store.AddReview(review, now);
      ClearSession(user.id);
      if s.score < 0 {
        return Panicked;
      }
      n := ToModerators(id, AdminToken(ApprovePrefix, id), AdminToken(RejectPrefix, id), AdminToken(BlockPrefix, id));
    }

    method HandleAdminAction(data: string, st: Status) returns (n: Notice)
      requires st == Approved || st == Rejected
      requires HasPrefix(data, if st == Approved then ApprovePrefix else RejectPrefix)
      modifies store
      ensures (Model(), n) == Moderate(old(Model()), ParseAdmin(if st == Approved then ApprovePrefix else RejectPrefix, data), st)
    {
      var prefix := if st == Approved then ApprovePrefix else RejectPrefix;
      var parsed := ScanInt(data[|prefix|..]);
      if parsed.None? {
        return Silent;
      }
      var review := store.GetReview(parsed.value);
      if review.None? {
        return Silent;
      }
      var _ := store.UpdateReviewStatus(parsed.value, st);
      n := ToAuthor(review.value.userID, st, review.value.professor);
    }

    method HandleAdminBlock(data: string)
      requires HasPrefix(data, BlockPrefix)
      modifies store
      ensures Model() == BlockAuthor(old(Model()), ParseAdmin(BlockPrefix, data))
    {
      var parsed := ScanInt(data[|BlockPrefix|..]);
      if parsed.None? {
        return;
      }
      var review := store.GetReview(parsed.value);
      if review.None? {
        return;
      }
      var _ := store.UpdateReviewStatus(parsed.value, Rejected);
      store.BlockUser(review.value.userID);
    }

    /** HandleRateText; `reply` is None when it returns false. */
    method HandleRateText(user: Utils.User, text: string) returns (reply: Option<Reply>)
      modifies this
      ensures reply.None? ==> RateText(old(Model()), user, text) == NotActive && Model() == old(Model())
      ensures reply.Some? ==> RateText(old(Model()), user, text) == Handled(Model(), reply.value)
    {
      ghost var b := Model();
      var active := HasActiveSession(user.id);
      if !active {
        return None;
      }
      var s := GetSession(user.id);
      assert s == b.sessions[user.id] && sessions == b.sessions;
      var t := TrimSpace(text);
      match s.step {
        case EnterName =>
          MatchesNameIffShape(t);
          if !MatchesName(t) {
            assert RateText(b, user, text) == Handled(b, InvalidName);
            return Some(InvalidName);
          }
          sessions := sessions[user.id := s.(professor := t, step := ChooseScore)];
          assert RateText(b, user, text) == Handled(Model(), AskScore);
          return Some(AskScore);
        case EnterReview =>
          var len := ByteLen(t);
          if len < 10 {
            assert RateText(b, user, text) == Handled(b, ReviewTooShort);
            return Some(ReviewTooShort);
          }
          if len > 1000 {
            assert RateText(b, user, text) == Handled(b, ReviewTooLong);
            return Some(ReviewTooLong);
          }
          assert CheckLength(t) == LengthOK;
          sessions := sessions[user.id := s.(text := t, step := Confirm)];
          var stars := Stars(s.score);
          if stars.None? {
            assert RateText(b, user, text) == Handled(Model(), Panic);
            return Some(Panic);
          }
          assert RateText(b, user, text) == Handled(Model(), Preview(stars.value));
          return Some(Preview(stars.value));
        case _ =>
          return Some(Panic);
      }
    }

    /** showRatingsPage: selects the approved or the matching reviews, then shows one page of them. */
    method ShowRatingsPage(page: int, search: string) returns (v: ListView)
      ensures v == ShowPage(Search(store.reviews, search), page, search)
    {
      var reviews: seq<Review>;
      if search != "" {
        reviews := store.SearchReviews(search);
      } else {
        reviews := store.GetApprovedReviews();
        SearchEmptyQuery(store.reviews);
      }
      v := PageOf(reviews, page, search);
    }

    /**
     * The loop of showRatingsPage that formats the page's reviews one after the other; false when it
     * reaches one whose star string formatReviewFromData panics on.
     */
    static method FormatsAll(items: seq<Review>) returns (ok: bool)
      ensures ok <==> forall k :: 0 <= k < |items| ==> 0 <= items[k].score <= 5
      ensures ok == AllFormattable(items)
    {
      var i := 0;
      while i < |items|
        invariant 0 <= i <= |items|
        invariant forall k :: 0 <= k < i ==> Formattable(items[k])
      {
        var stars := Stars(items[i].score);
        if stars.None? {
          return false;
        }
        i := i + 1;
      }
      return true;
    }

    /**
     * The pagination arithmetic of showRatingsPage (ceiling division, clamping, the slice), then the
     * formatting of the page's reviews, which panics on the first one formatReviewFromData cannot render.
     */
    static method PageOf(reviews: seq<Review>, page: int, search: string) returns (v: ListView)
      ensures v == ShowPage(reviews, page, search)
    {
      if |reviews| == 0 {
        return NoReviews(search);
      }
      var perPage := 5;
      var totalPages := (|reviews| + perPage - 1) / perPage;
      var p := page;
      if p < 0 {
        p := 0;
      }
      if p >= totalPages {
        p := totalPages - 1;
      }
      var start := p * perPage;
      var end := start + perPage;
      if end > |reviews| {
        end := |reviews|;
      }
      var w := Window(p, totalPages, start, end);
      assert w == Paginate(|reviews|, page);
      var formatted := FormatsAll(reviews[start..end]);
      if !formatted {
        return ListPanicked;
      }
      var prev: Option<string> := None;
      if p > 0 {
        prev := Some(PageToken(p - 1, search));
      }
      var next: Option<string> := None;
      if p < totalPages - 1 {
        next := Some(PageToken(p + 1, search));
      }
      v := PageView(reviews[start..end], w, prev, next);
    }

    method HandleRatings(isPrivate: bool) returns (v: Option<ListView>)
      ensures v == Ratings(Model(), isPrivate)
    {
      if !isPrivate {
        return None;
      }
      var view := ShowRatingsPage(0, "");
      SearchEmptyQuery(store.reviews);
      v := Some(view);
    }

    method HandleRatingsCallback(user: Utils.User, data: string) returns (v: Option<ListView>)
      modifies this
      ensures (Model(), v) == RatingsCallback(old(Model()), user, data)
    {
      CallbackKindsDisjoint(data);
      if data == "ratings_search" {
        sessions := sessions[user.id := SearchMode];
        return None;
      }
      assert Model() == old(Model());
      if HasPrefix(data, PagePrefix) {
        var rest := data[|PagePrefix|..];
        var page: int;
        var search: string;
        match IndexOf(rest, '_') {
          case None =>
            page := AtoiOrZero(rest);
            search := "";
          case Some(k) =>
            page := AtoiOrZero(rest[..k]);
            search := rest[k + 1..];
        }
        assert (page, search) == ParsePage(data);
        var view := ShowRatingsPage(page, search);
        assert RatingsCallback(old(Model()), user, data) == (Model(), Some(view));
        return Some(view);
      }
      return None;
    }

    /** HandleSearchText; `v` is None when it returns false. */
    method HandleSearchText(user: Utils.User, text: string) returns (v: Option<ListView>)
      modifies this
      ensures v.None? ==> SearchText(old(Model()), user, text) == NotSearching && Model() == old(Model())
      ensures v.Some? ==> SearchText(old(Model()), user, text) == Searched(Model(), v.value)
    {
      if user.id !in sessions || sessions[user.id].messageID != -1 {
        return None;
      }
      ClearSession(user.id);
      var query := TrimSpace(text);
      var view := ShowRatingsPage(0, query);
      return Some(view);
    }
  }
}
