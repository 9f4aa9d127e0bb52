/**
 * The FeatureHandler of internal/bot: the handlers that change the shared verification state
 * (quiz.go, utils.go) and the rate limiter's timestamp map (ratelimit.go). Chat restrictions are
 * Telegram calls; the model records their effect in the ghost set `restricted`.
 */
module Features {
  import opened Wrappers
  import opened CoreState
  import opened Quiz
  import opened Utils
  import RateLimiter

  /** The ids of a list of users. */
  ghost function Ids(users: seq<User>): set<int>
    decreases |users|
  {
    if users == [] then {} else Ids(users[..|users| - 1]) + {users[|users| - 1].id}
  }

  /** One more joined user: the ids grow by that user's id. */
  lemma IdsStep(users: seq<User>, i: nat)
    requires i < |users|
    ensures Ids(users[..i + 1]) == Ids(users[..i]) + {users[i].id}
  {
    assert users[..i + 1][..i] == users[..i];
  }

  /** One more joined user: JoinAll marks that user a newbie and gives a count of 0, after the earlier ones. */
  lemma JoinStep(v: Verification, users: seq<User>, i: nat)
    requires i < |users|
    ensures JoinAll(v, users[..i + 1]) == JoinAll(v, users[..i]).SetNewbie(users[i].id).InitUser(users[i].id)
  {
    assert users[..i + 1][..i] == users[..i];
  }

  /** Marking one user a newbie and giving them a count of 0 adds no other newbie. */
  lemma JoinOneNewbies(v: Verification, u: int)
    ensures forall x :: v.SetNewbie(u).InitUser(u).IsNewbie(x) ==> v.IsNewbie(x) || x == u
  {
  }

  class FeatureHandler {
    const state: State
    const quiz: seq<Question>
    /** The rate limiter's last-command times, in nanoseconds; an absent entry is the zero time. */
    var rateLimit: map<int, int>
    /** The users whose chat permissions were last set to "restricted". */
    ghost var restricted: set<int>

    /** Every newbie is restricted: a flag is only set together with a restriction, and only cleared with it lifted or on leave. */
    ghost predicate Valid()
      reads this, state
    {
      forall u :: state.View().IsNewbie(u) ==> u in restricted
    }

    constructor (s: State, q: seq<Question>)
      requires forall u :: !s.View().IsNewbie(u)
      ensures state == s && quiz == q && rateLimit == map[] && restricted == {}
      ensures Valid()
    {
      state := s;
      quiz := q;
      rateLimit := map[];
      restricted := {};
    }

    /** HandleStudent: the sender's count is set to 0 and the first question, if any, is shown. */
    method HandleStudent(sender: int) returns (shown: Option<Question>)
      requires Valid()
      modifies state
      ensures state.View() == old(state.View()).InitUser(sender)
      ensures shown == if |quiz| > 0 then Some(quiz[0]) else None
      ensures Valid()
    {
      state.InitUser(sender);
      if |quiz| > 0 {
        shown := Some(quiz[0]);
      } else {
        shown := None;
      }
    }

    /**
     * A press of button `btn` of question `i`, through OnlyNewbies and the CreateQuizHandler
     * closure; a pass lifts the sender's restriction.
     */
    method QuizButton(sender: Option<int>, i: nat, btn: Button) returns (o: Outcome)
      requires i < |quiz|
      requires Valid()
      modifies this, state
      ensures (state.View(), o) == PressButton(old(state.View()), sender, quiz, i, btn)
      ensures o == Passed ==> restricted == old(restricted) - {sender.value}
      ensures o != Passed ==> restricted == old(restricted)
      ensures rateLimit == old(rateLimit)
      ensures Valid()
    {
      if sender.None? {
        return NotYourButton;
      }
      var u := sender.value;
      var newbie := state.IsNewbie(u);
      if !newbie {
        return NotYourButton;
      }
      if btn.unique == quiz[i].answer {
        state.IncCorrect(u);
      }
      if i + 1 < |quiz| {
        return NextQuestion(i + 1);
      }
      var total := state.TotalCorrect(u);
      if total >= PassMark {
        restricted := restricted - {u};
        state.ClearNewbie(u);
        o := Passed;
      } else {
        o := Failed;
      }
      state.Reset(u);
    }

    /**
     * HandleUserJoined: nothing without a message and a chat; otherwise each new user in turn is
     * marked a newbie, restricted, and given a count of 0.
     */
    method HandleUserJoined(msg: Option<Message>, hasChat: bool)
      requires Valid()
      modifies this, state
      ensures msg.None? || !hasChat ==> state.View() == old(state.View()) && restricted == old(restricted)
      ensures msg.Some? && hasChat ==> state.View() == JoinAll(old(state.View()), NewUsers(msg.value))
      ensures msg.Some? && hasChat ==> restricted == old(restricted) + Ids(NewUsers(msg.value))
      ensures rateLimit == old(rateLimit)
      ensures Valid()
    {
      if msg.None? || !hasChat {
        return;
      }
      var users := GetNewUsers(msg.value);
      var i := 0;
      while i < |users|
        invariant 0 <= i <= |users|
        invariant state.View() == JoinAll(old(state.View()), users[..i])
        invariant restricted == old(restricted) + Ids(users[..i])
        invariant rateLimit == old(rateLimit)
        invariant Valid()
      {
        var u := users[i];
        JoinStep(old(state.View()), users, i);
        IdsStep(users, i);
        JoinOneNewbies(state.View(), u.id);
        state.SetNewbie(u.id);
        restricted := restricted + {u.id};
        state.InitUser(u.id);
        i := i + 1;
      }
      assert users[..i] == users;
    }

    /** HandleUserLeft: the leaver's newbie flag is cleared; without a message, chat or leaver nothing happens. */
    method HandleUserLeft(msg: Option<Message>, hasChat: bool)
      requires Valid()
      modifies state
      ensures msg.None? || !hasChat || msg.value.userLeft.None? ==> state.View() == old(state.View())
      ensures msg.Some? && hasChat && msg.value.userLeft.Some? ==>
                state.View() == old(state.View()).ClearNewbie(msg.value.userLeft.value.id)
      ensures Valid()
    {
      if msg.None? || !hasChat || msg.value.userLeft.None? {
        return;
      }
      state.ClearNewbie(msg.value.userLeft.value.id);
    }

    /** HandleGuest: the sender's restriction is lifted and the newbie flag cleared. */
    method HandleGuest(sender: int)
      requires Valid()
      modifies this, state
      ensures state.View() == old(state.View()).ClearNewbie(sender)
      ensures restricted == old(restricted) - {sender}
      ensures rateLimit == old(rateLimit)
      ensures Valid()
    {
      restricted := restricted - {sender};
      state.ClearNewbie(sender);
    }

    /** RateLimit around one command: whether the wrapped handler runs, and the new timestamp map. */
    method RateLimit(sender: Option<int>, now: int) returns (run: bool)
      modifies this
      ensures RateLimiter.Decision(run, rateLimit) == RateLimiter.Admit(old(rateLimit), sender, now)
      ensures restricted == old(restricted)
    {
      if sender.None? {
        return true;
      }
      var uid := sender.value;
      if uid in rateLimit && now - rateLimit[uid] < RateLimiter.Second {
        rateLimit := rateLimit[uid := now];
        return false;
      }
      rateLimit := rateLimit[uid := now];
      run := true;
    }
  }
}
