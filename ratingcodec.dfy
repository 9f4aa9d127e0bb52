/**
 * The expression-level parts of internal/bot/rating.go: callback tokens and their parsing, the
 * star string, the professor-name and review-length checks, the pagination arithmetic of the
 * ratings list, and the rating handler's own language lookup.
 */
module RatingCodec {
  import opened Wrappers
  import opened Text
  import opened Reviews
  import Utils

  // ---------------------------------------------------------------- callbacks

  /** A callback as the Telegram library delivers it: the button's data and its unique tag. */
  datatype Callback = Callback(data: string, unique: string)

  /** The text every rating handler dispatches on: Data when present, else Unique. */
  function CallbackID(cb: Callback): (id: string)
    ensures cb.data != "" ==> id == cb.data
    ensures cb.data == "" ==> id == cb.unique
    ensures id == "" <==> cb.data == "" && cb.unique == ""
  {
    if cb.data == "" then cb.unique else cb.data
  }

  const ApprovePrefix := "rate_approve_"
  const RejectPrefix := "rate_reject_"
  const BlockPrefix := "rate_block_"
  const ScorePrefix := "rate_score_"
  const PagePrefix := "ratings_page_"

  /** `fmt.Sprintf(prefix + "%d", id)`: the data of a moderation button. */
  function AdminToken(prefix: string, id: int): (t: string)
    ensures HasPrefix(t, prefix) && |t| > |prefix|
  {
    prefix + FormatInt(id)
  }

  /**
   * `fmt.Sscanf(data, prefix + "%d", &id)` on data the router already found to start with the
   * prefix: the review id when one follows, none when the scan fails (n != 1).
   */
  function ParseAdmin(prefix: string, data: string): (r: Option<int>)
    requires HasPrefix(data, prefix)
    ensures r.Some? ==> exists k :: |prefix| <= k < |data| && IsDigit(data[k])
    ensures |prefix| < |data| && IsDigit(data[|prefix|]) ==> r.Some?
  {
    ScanInt(data[|prefix|..])
  }

  /** Every moderation token the submit step writes is read back to the same review id. */
  lemma AdminTokenRoundTrip(prefix: string, id: int)
    ensures ParseAdmin(prefix, AdminToken(prefix, id)) == Some(id)
  {
    assert AdminToken(prefix, id)[|prefix|..] == FormatInt(id);
    ScanIntFormatInt(id);
  }

  /** Text after the id is ignored as long as it does not start with a digit, so "rate_approve_5_x" reads 5. */
  lemma AdminTokenWithTail(prefix: string, id: int, rest: string)
    requires rest == [] || !IsDigit(rest[0])
    ensures HasPrefix(AdminToken(prefix, id) + rest, prefix)
    ensures ParseAdmin(prefix, AdminToken(prefix, id) + rest) == Some(id)
  {
    var t := AdminToken(prefix, id) + rest;
    assert t[..|prefix|] == prefix;
    assert t[|prefix|..] == FormatInt(id) + rest;
    ScanIntIgnoresRest(id, rest);
  }

  /** The three moderation prefixes and the score prefix never start one another's tokens. */
  lemma AdminTokensDistinct(id: int)
    ensures var a := AdminToken(ApprovePrefix, id);
      HasPrefix(a, ApprovePrefix) && !HasPrefix(a, RejectPrefix) && !HasPrefix(a, BlockPrefix) && !HasPrefix(a, ScorePrefix)
    ensures var r := AdminToken(RejectPrefix, id);
      HasPrefix(r, RejectPrefix) && !HasPrefix(r, ApprovePrefix) && !HasPrefix(r, BlockPrefix) && !HasPrefix(r, ScorePrefix)
    ensures var b := AdminToken(BlockPrefix, id);
      HasPrefix(b, BlockPrefix) && !HasPrefix(b, ApprovePrefix) && !HasPrefix(b, RejectPrefix) && !HasPrefix(b, ScorePrefix)
  {
    var a := AdminToken(ApprovePrefix, id);
    var r := AdminToken(RejectPrefix, id);
    var b := AdminToken(BlockPrefix, id);
    assert a[5] == 'a' && r[5] == 'r' && b[5] == 'b';
    assert ScorePrefix[5] == 's' && ApprovePrefix[5] == 'a' && RejectPrefix[5] == 'r' && BlockPrefix[5] == 'b';
  }

  /** `strconv.Atoi` with the error ignored, as the handlers use it: 0 on failure. */
  function AtoiOrZero(s: string): (n: int)
    ensures Atoi(s).Some? ==> n == Atoi(s).value
    ensures Atoi(s).None? ==> n == 0
  {
    match Atoi(s)
    case Some(v) => v
    case None => 0
  }

  /** The score a `rate_score_` callback carries. */
  function ScoreOf(data: string): (r: int)
    requires HasPrefix(data, ScorePrefix)
    ensures r != 0 ==> Atoi(data[|ScorePrefix|..]) == Some(r)
  {
    AtoiOrZero(data[|ScorePrefix|..])
  }

  /** The registered score buttons carry exactly the scores 1 to 5. */
  lemma ScoreButtons(n: int)
    requires 1 <= n <= 5
    ensures HasPrefix(ScorePrefix + FormatInt(n), ScorePrefix) && ScoreOf(ScorePrefix + FormatInt(n)) == n
  {
    assert (ScorePrefix + FormatInt(n))[|ScorePrefix|..] == FormatInt(n);
    AtoiFormatInt(n);
  }

  /** `fmt.Sprintf("ratings_page_%d_%s", page, search)`: a navigation button's tag. */
  function PageToken(page: int, search: string): (t: string)
    ensures HasPrefix(t, PagePrefix)
  {
    PagePrefix + FormatInt(page) + "_" + search
  }

  /**
   * HandleRatingsCallback on a `ratings_page_` tag: the rest is split at its first '_'; the part
   * before it goes through Atoi (0 on error), the part after it, if any, is the search text.
   */
  function ParsePage(data: string): (r: (int, string))
    requires HasPrefix(data, PagePrefix)
    ensures var rest := data[|PagePrefix|..];
      && ('_' !in rest ==> r == (AtoiOrZero(rest), ""))
      && ('_' in rest ==> exists k :: 0 <= k < |rest| && rest[k] == '_' && '_' !in rest[..k]
                                      && r == (AtoiOrZero(rest[..k]), rest[k + 1..]))
  {
    var rest := data[|PagePrefix|..];
    match IndexOf(rest, '_')
    case None => (AtoiOrZero(rest), "")
    case Some(k) => (AtoiOrZero(rest[..k]), rest[k + 1..])
  }

  /** A navigation tag is read back to its page and search, even when the search holds '_'. */
  lemma PageTokenRoundTrip(page: int, search: string)
    ensures ParsePage(PageToken(page, search)) == (page, search)
  {
    var f := FormatInt(page);
    var rest := PageToken(page, search)[|PagePrefix|..];
    assert rest == f + "_" + search;
    assert IndexOf(rest, '_') == Some(|f|) by {
      assert rest[|f|] == '_';
      assert forall j :: 0 <= j < |f| ==> rest[j] == f[j];
    }
    assert rest[..|f|] == f;
    assert rest[|f| + 1..] == search;
    AtoiFormatInt(page);
  }

  // ---------------------------------------------------------------- stars

  const FullStar: char := '\U{2B50}'
  const EmptyStar: char := '\U{2606}'

  /**
   * The star string of formatReview and formatReviewFromData: `score` full stars then `5 - score`
   * empty ones. strings.Repeat panics on a negative count, so a score outside 0..5 is a panic (None).
   */
  function Stars(score: int): (r: Option<string>)
    ensures r.None? <==> score < 0 || score > 5
    ensures r.Some? ==> |r.value| == 5
    ensures r.Some? ==> forall k :: 0 <= k < 5 ==> (r.value[k] == FullStar <==> k < score)
    ensures r.Some? ==> forall k :: 0 <= k < 5 ==> r.value[k] in {FullStar, EmptyStar}
  {
    if score < 0 || score > 5 then None
    else Some(Repeat(FullStar, score) + Repeat(EmptyStar, 5 - score))
  }

  // ---------------------------------------------------------------- text checks

  /** A letter of the name pattern's class: A-Z, a-z and the eighteen Polish diacritic letters. */
  predicate NameLetter(c: char) {
    || 'A' <= c <= 'Z' || 'a' <= c <= 'z'
    || c in {'\U{104}', '\U{106}', '\U{118}', '\U{141}', '\U{143}', '\U{D3}', '\U{15A}', '\U{179}', '\U{17B}',
             '\U{105}', '\U{107}', '\U{119}', '\U{142}', '\U{144}', '\U{F3}', '\U{15B}', '\U{17A}', '\U{17C}'}
  }

  /** The regular expression's `\s`: tab, newline, form feed, carriage return and space. */
  predicate RegexSpace(c: char) {
    c in {'\t', '\n', '\U{C}', '\r', ' '}
  }

  predicate AllLetters(s: string) {
    forall k :: 0 <= k < |s| ==> NameLetter(s[k])
  }

  predicate AllRegexSpace(s: string) {
    forall k :: 0 <= k < |s| ==> RegexSpace(s[k])
  }

  /** The language of `^[letters]+\s+[letters]+$`: a first word, a blank run, a last word, nothing else. */
  ghost predicate NameShape(t: string) {
    exists i, j :: 0 < i < j < |t| && AllLetters(t[..i]) && AllRegexSpace(t[i..j]) && AllLetters(t[j..])
  }

  /** The length of the longest prefix of `s` whose characters satisfy the class. */
  function LetterRun(s: string): (n: nat)
    ensures n <= |s| && AllLetters(s[..n])
    ensures n < |s| ==> !NameLetter(s[n])
  {
    if s != [] && NameLetter(s[0]) then
      var n := LetterRun(s[1..]) + 1;
      assert forall k :: 1 <= k < n ==> s[..n][k] == s[1..][..n - 1][k - 1];
      n
    else 0
  }

  function SpaceRun(s: string): (n: nat)
    ensures n <= |s| && AllRegexSpace(s[..n])
    ensures n < |s| ==> !RegexSpace(s[n])
  {
    if s != [] && RegexSpace(s[0]) then
      var n := SpaceRun(s[1..]) + 1;
      assert forall k :: 1 <= k < n ==> s[..n][k] == s[1..][..n - 1][k - 1];
      n
    else 0
  }

  /** The matcher: the longest letter run, then the longest blank run, then letters to the end. */
  function MatchesName(t: string): bool {
    var i := LetterRun(t);
    var j := i + SpaceRun(t[i..]);
    0 < i < j < |t| && AllLetters(t[j..])
  }

  /** A run of letters ended by a non-letter is exactly what LetterRun measures. */
  lemma {:induction false} LetterRunExact(s: string, i: nat)
    requires i < |s| && AllLetters(s[..i]) && !NameLetter(s[i])
    ensures LetterRun(s) == i
    decreases i
  {
    if i > 0 {
      assert s[..i][0] == s[0];
      assert forall k :: 1 <= k < i ==> s[1..][..i - 1][k - 1] == s[..i][k];
      LetterRunExact(s[1..], i - 1);
    }
  }

  lemma {:induction false} SpaceRunExact(s: string, i: nat)
    requires i < |s| && AllRegexSpace(s[..i]) && !RegexSpace(s[i])
    ensures SpaceRun(s) == i
    decreases i
  {
    if i > 0 {
      assert s[..i][0] == s[0];
      assert forall k :: 1 <= k < i ==> s[1..][..i - 1][k - 1] == s[..i][k];
      SpaceRunExact(s[1..], i - 1);
    }
  }

  /** Letters and blanks are disjoint, so the greedy split is the only split: the matcher decides the pattern. */
  lemma MatchesNameIffShape(t: string)
    ensures MatchesName(t) <==> NameShape(t)
  {
    if MatchesName(t) {
      MatchesGivesShape(t);
    }
    if NameShape(t) {
      var i, j :| 0 < i < j < |t| && AllLetters(t[..i]) && AllRegexSpace(t[i..j]) && AllLetters(t[j..]);
      ShapeGivesMatch(t, i, j);
    }
  }

  lemma MatchesGivesShape(t: string)
    requires MatchesName(t)
    ensures NameShape(t)
  {
    var i := LetterRun(t);
    var j := i + SpaceRun(t[i..]);
    assert t[i..j] == t[i..][..j - i];
  }

  lemma ShapeGivesMatch(t: string, i: nat, j: nat)
    requires 0 < i < j < |t| && AllLetters(t[..i]) && AllRegexSpace(t[i..j]) && AllLetters(t[j..])
    ensures MatchesName(t)
  {
    assert t[i..j][0] == t[i];
    LetterRunExact(t, i);
    var u := t[i..];
    assert u[..j - i] == t[i..j];
    assert u[j - i] == t[j..][0];
    SpaceRunExact(u, j - i);
  }

  /** The outcome of the review-length check, on the byte length as Go's len counts it. */
  datatype LengthCheck = TooShort | TooLong | LengthOK

  function CheckLength(t: string): (r: LengthCheck)
    ensures r == LengthOK <==> 10 <= ByteLen(t) <= 1000
    ensures r == TooShort <==> ByteLen(t) < 10
  {
    if ByteLen(t) < 10 then TooShort
    else if ByteLen(t) > 1000 then TooLong
    else LengthOK
  }

  /** The minimum counts bytes, not letters: five two-byte letters (10 bytes) pass, five ASCII letters (5 bytes) are too short. */
  lemma LengthCountsBytes()
    ensures CheckLength(Repeat('\U{105}', 5)) == LengthOK
    ensures CheckLength(Repeat('a', 5)) == TooShort
  {
    var p := Repeat('\U{105}', 5);
    assert p[1..][1..][1..][1..][1..] == [];
    var a := Repeat('a', 5);
  }

  // ---------------------------------------------------------------- pagination

  const PerPage: nat := 5

  /** The window of one list page: its clamped index, the page count and the slice bounds. */
  datatype Window = Window(page: int, totalPages: int, start: int, end: int)

  /** The page arithmetic of showRatingsPage for a non-empty list of `n` reviews. */
  function Paginate(n: nat, page: int): (w: Window)
    requires n > 0
    ensures w.totalPages == (n + PerPage - 1) / PerPage
    ensures (w.totalPages - 1) * PerPage < n <= w.totalPages * PerPage
    ensures 0 <= w.page < w.totalPages
    ensures 0 <= page < w.totalPages ==> w.page == page
    ensures page < 0 ==> w.page == 0
    ensures page >= w.totalPages ==> w.page == w.totalPages - 1
    ensures w.start == w.page * PerPage
    ensures w.end == if w.start + PerPage <= n then w.start + PerPage else n
    ensures 0 <= w.start < w.end <= n
  {
    var total := (n + PerPage - 1) / PerPage;
    var p := if page < 0 then 0 else if page >= total then total - 1 else page;
    var start := p * PerPage;
    var end := if start + PerPage > n then n else start + PerPage;
    Window(p, total, start, end)
  }

  /** Every review is on exactly one page: review k is on page k / 5 and on no other. */
  lemma PagesPartition(n: nat, k: nat, p: int)
    requires k < n
    ensures Paginate(n, k / PerPage).page == k / PerPage
    ensures Paginate(n, k / PerPage).start <= k < Paginate(n, k / PerPage).end
    ensures 0 <= p < Paginate(n, 0).totalPages && Paginate(n, p).start <= k < Paginate(n, p).end ==> p == k / PerPage
  {
  }

  /** formatReviewFromData can render a review only when its score makes a star string, 0 to 5. */
  predicate Formattable(r: Review) {
    Stars(r.score).Some?
  }

  predicate AllFormattable(rs: seq<Review>) {
    forall k :: 0 <= k < |rs| ==> Formattable(rs[k])
  }

  /** What the ratings list shows; ListPanicked: formatting a review of the page panicked, so no list was sent. */
  datatype ListView =
    | NoReviews(search: string)
    | PageView(items: seq<Review>, window: Window, prev: Option<string>, next: Option<string>)
    | ListPanicked

  /**
   * showRatingsPage on the already selected reviews: a "no reviews" reply when there are none,
   * otherwise the clamped page's slice with a previous-page tag unless on the first page and a
   * next-page tag unless on the last, both carrying the search text. A review on that page whose
   * score is outside 0..5 makes the star string's strings.Repeat panic.
   */
  function ShowPage(reviews: seq<Review>, page: int, search: string): (v: ListView)
    ensures reviews == [] <==> v.NoReviews?
    ensures v.ListPanicked? <==> reviews != [] && exists k :: Paginate(|reviews|, page).start <= k < Paginate(|reviews|, page).end
                                                             && !Formattable(reviews[k])
    ensures v.PageView? ==> v.window == Paginate(|reviews|, page)
                            && v.items == reviews[v.window.start..v.window.end]
                            && 1 <= |v.items| <= PerPage
                            && AllFormattable(v.items)
    ensures v.PageView? ==> (v.prev.Some? <==> v.window.page > 0) && (v.next.Some? <==> v.window.page < v.window.totalPages - 1)
  {
    if reviews == [] then NoReviews(search)
    else
      var w := Paginate(|reviews|, page);
      var items := reviews[w.start..w.end];
      if !AllFormattable(items) then
        ListPanicked
      else
        var prev := if w.page > 0 then Some(PageToken(w.page - 1, search)) else None;
        var next := if w.page < w.totalPages - 1 then Some(PageToken(w.page + 1, search)) else None;
        PageView(items, w, prev, next)
  }

  /** A list of one review that cannot be formatted panics, whatever page is asked for. */
  lemma LoneReviewPanics(x: Review, page: int, search: string)
    requires !Formattable(x)
    ensures ShowPage([x], page, search) == ListPanicked
  {
    var w := Paginate(1, page);
    assert w.start == 0 && w.end == 1;
    assert [x][0] == x;
  }

  /** The navigation tags lead to the neighbouring pages of the same search. */
  lemma NavigationTags(reviews: seq<Review>, page: int, search: string)
    requires ShowPage(reviews, page, search).PageView?
    ensures var v := ShowPage(reviews, page, search);
      && (v.prev.Some? ==> HasPrefix(v.prev.value, PagePrefix) && ParsePage(v.prev.value) == (v.window.page - 1, search)
                           && Paginate(|reviews|, v.window.page - 1).page == v.window.page - 1)
      && (v.next.Some? ==> HasPrefix(v.next.value, PagePrefix) && ParsePage(v.next.value) == (v.window.page + 1, search)
                           && Paginate(|reviews|, v.window.page + 1).page == v.window.page + 1)
  {
    var v := ShowPage(reviews, page, search);
    PageTokenRoundTrip(v.window.page - 1, search);
    PageTokenRoundTrip(v.window.page + 1, search);
  }

  /** The reviews a list request starts from: the search results for a non-empty search, else all approved. */
  function Listing(store: Store, search: string): (rs: seq<Review>)
    ensures rs == Search(store.reviews, search)
  {
    if search != "" then Search(store.reviews, search)
    else
      SearchEmptyQuery(store.reviews);
      ApprovedOnly(store.reviews)
  }

  // ---------------------------------------------------------------- language

  /**
   * The rating handler's own language lookup: only an exact two-letter code selects a language;
   * unlike the feature handler's resolver there is no prefix fallback, so "en-us" gets the default.
   */
  function RatingLang(user: Option<Utils.User>, default: Utils.Lang): (l: Utils.Lang)
    ensures user.None? ==> l == default
    ensures user.Some? ==> forall c: Utils.Lang :: Utils.Code(c) == Utils.NormalCode(user.value) ==> l == c
    ensures user.Some? && (forall c: Utils.Lang :: Utils.Code(c) != Utils.NormalCode(user.value)) ==> l == default
  {
    if user.None? then default
    else
      var code := Utils.NormalCode(user.value);
      match Utils.ExactLang(code)
      case Some(l) =>
        assert forall c: Utils.Lang :: Utils.Code(c) == code ==> c == l by {
          forall c: Utils.Lang | Utils.Code(c) == code ensures c == l {
            assert HasPrefix(code, Utils.Code(c)) && HasPrefix(code, Utils.Code(l));
            Utils.PrefixUnique(code, c, l);
          }
        }
        l
      case None => default
  }
}
