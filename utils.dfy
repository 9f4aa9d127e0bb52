/**
 * The pure parts of internal/bot/utils.go: the language resolver, the users of a join event, and
 * the effect a join has on the verification state.
 */
module Utils {
  import opened Wrappers
  import opened Text
  import opened CoreState

  datatype Lang = PL | EN | RU | UK | BE

  /** The two-letter code each supported language is keyed by. */
  function Code(l: Lang): string {
    match l
    case PL => "pl"
    case EN => "en"
    case RU => "ru"
    case UK => "uk"
    case BE => "be"
  }

  datatype User = User(id: int, username: string, firstName: string, languageCode: string)

  /** Two distinct languages never share a code prefix: all codes are distinct two-letter strings. */
  lemma PrefixUnique(code: string, a: Lang, b: Lang)
    requires HasPrefix(code, Code(a)) && HasPrefix(code, Code(b))
    ensures a == b
  {
    assert code[..2] == Code(a) && code[..2] == Code(b);
  }

  /** The lookup `langMap[code]`: the language whose code is exactly `code`. */
  function ExactLang(code: string): (r: Option<Lang>)
    ensures r.Some? ==> Code(r.value) == code
    ensures r.None? ==> forall l: Lang :: Code(l) != code
  {
    if code == "pl" then Some(PL)
    else if code == "en" then Some(EN)
    else if code == "ru" then Some(RU)
    else if code == "uk" then Some(UK)
    else if code == "be" then Some(BE)
    else None
  }

  /** The loop over langMap: some language whose code starts `code`, if there is one. */
  function PrefixLang(code: string): (r: Option<Lang>)
    ensures r.Some? ==> HasPrefix(code, Code(r.value))
    ensures r.None? ==> forall l: Lang :: !HasPrefix(code, Code(l))
  {
    if HasPrefix(code, "pl") then Some(PL)
    else if HasPrefix(code, "en") then Some(EN)
    else if HasPrefix(code, "ru") then Some(RU)
    else if HasPrefix(code, "uk") then Some(UK)
    else if HasPrefix(code, "be") then Some(BE)
    else None
  }

  /** The normalised language code of a user: trimmed, then lower-cased. */
  function NormalCode(u: User): string {
    Lower(TrimSpace(u.languageCode))
  }

  /**
   * getLangForUser: the default for no user or an empty code, then the exact lookup, then the
   * prefix search, then the default.
   */
  function LangForUser(user: Option<User>, default: Lang): (l: Lang)
    ensures user.None? ==> l == default
    ensures user.Some? && NormalCode(user.value) == "" ==> l == default
    ensures user.Some? && NormalCode(user.value) != "" ==>
              l == (match PrefixLang(NormalCode(user.value)) case Some(p) => p case None => default)
  {
    if user.None? then default
    else
      var code := NormalCode(user.value);
      if code == "" then default
      else
        match ExactLang(code)
        case Some(l) =>
          assert HasPrefix(code, Code(l));
          PrefixUnique(code, l, PrefixLang(code).value);
          l
        case None =>
          match PrefixLang(code)
          case Some(l) => l
          case None => default
  }

  /**
   * The language chosen for a user: the language whose code is the normalised code or a prefix of
   * it ("en-us" gives EN), else the default. The prefix search runs over a Go map in random order;
   * since no code is a prefix of two languages' codes, that order cannot change the result.
   */
  lemma LangForUserChoice(u: User, default: Lang)
    ensures forall c: Lang :: HasPrefix(NormalCode(u), Code(c)) ==> LangForUser(Some(u), default) == c
    ensures (forall c: Lang :: !HasPrefix(NormalCode(u), Code(c))) ==> LangForUser(Some(u), default) == default
  {
    var code := NormalCode(u);
    forall c: Lang | HasPrefix(code, Code(c))
      ensures LangForUser(Some(u), default) == c
    {
      PrefixUnique(code, c, PrefixLang(code).value);
    }
  }

  /** A Telegram service message: the joined users (a list or a single one) and the user who left. */
  datatype Message = Message(usersJoined: seq<User>, userJoined: Option<User>, userLeft: Option<User>)

  /** The users a join message is about. */
  function NewUsers(msg: Message): seq<User> {
    if |msg.usersJoined| > 0 then msg.usersJoined
    else if msg.userJoined.Some? then [msg.userJoined.value]
    else []
  }

  /** GetNewUsers: all of UsersJoined in order when there are any, else the single UserJoined, else none. */
  method GetNewUsers(msg: Message) returns (users: seq<User>)
    ensures |msg.usersJoined| > 0 ==> users == msg.usersJoined
    ensures |msg.usersJoined| == 0 && msg.userJoined.Some? ==> users == [msg.userJoined.value]
    ensures |msg.usersJoined| == 0 && msg.userJoined.None? ==> users == []
    ensures users == NewUsers(msg)
  {
    if |msg.usersJoined| > 0 {
      users := [];
      var i := 0;
      while i < |msg.usersJoined|
        invariant 0 <= i <= |msg.usersJoined|
        invariant users == msg.usersJoined[..i]
      {
        users := users + [msg.usersJoined[i]];
        i := i + 1;
      }
      return;
    }
    if msg.userJoined.Some? {
      return [msg.userJoined.value];
    }
    return [];
  }

  /** The verification state after HandleUserJoined marked each user in turn a newbie and reset the count to 0. */
  function JoinAll(v: Verification, users: seq<User>): (r: Verification)
    ensures forall x :: r.IsNewbie(x) ==> v.IsNewbie(x) || x in r.userCorrect
    decreases |users|
  {
    if users == [] then v
    else
      var last := users[|users| - 1];
      JoinAll(v, users[..|users| - 1]).SetNewbie(last.id).InitUser(last.id)
  }

  /** Every joined user is a newbie with count 0, and everyone else is untouched. */
  lemma {:induction false} JoinAllEffect(v: Verification, users: seq<User>)
    ensures var r := JoinAll(v, users);
      forall k :: 0 <= k < |users| ==>
        r.IsNewbie(users[k].id) && users[k].id in r.userCorrect && r.TotalCorrect(users[k].id) == 0
    ensures var r := JoinAll(v, users);
      forall x :: (forall k :: 0 <= k < |users| ==> users[k].id != x) ==>
        (x in r.userCorrect <==> x in v.userCorrect) && (x in v.userCorrect ==> r.userCorrect[x] == v.userCorrect[x])
        && r.IsNewbie(x) == v.IsNewbie(x)
    decreases |users|
  {
    if users != [] {
      var n := |users| - 1;
      var init := users[..n];
      var last := users[n];
      JoinAllEffect(v, init);
      var prev := JoinAll(v, init);
      var r := JoinAll(v, users);
      assert r == prev.SetNewbie(last.id).InitUser(last.id);
      forall k | 0 <= k < |users|
        ensures r.IsNewbie(users[k].id) && users[k].id in r.userCorrect && r.TotalCorrect(users[k].id) == 0
      {
        if k < n {
          assert init[k] == users[k];
        }
      }
      forall x | (forall k :: 0 <= k < |users| ==> users[k].id != x)
        ensures (x in r.userCorrect <==> x in v.userCorrect) && (x in v.userCorrect ==> r.userCorrect[x] == v.userCorrect[x])
        ensures r.IsNewbie(x) == v.IsNewbie(x)
      {
        forall k | 0 <= k < n
          ensures init[k].id != x
        {
          assert init[k] == users[k];
        }
        assert last.id != x;
      }
    }
  }
}
