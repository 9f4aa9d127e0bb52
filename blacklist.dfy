/**
 * The banned-phrase filter of internal/bot/blacklist.go. A phrase is a list of lower-cased tokens;
 * a one-token phrase must equal a whole word of the message, a longer phrase matches when each of
 * its tokens occurs anywhere in the lower-cased message.
 */
module Phrases {
  import opened Text

  type Phrase = seq<string>

  /** The specification of toLowerSlice: each word lower-cased, same length, same order. */
  function LowerAll(words: seq<string>): (r: seq<string>)
    ensures |r| == |words|
    ensures forall i :: 0 <= i < |words| ==> r[i] == Lower(words[i]) && IsLower(r[i])
  {
    seq(|words|, i requires 0 <= i < |words| => Lower(words[i]))
  }

  /** `strings.Join(p, " ")`. */
  function JoinSpace(p: Phrase): string {
    if p == [] then ""
    else if |p| == 1 then p[0]
    else p[0] + " " + JoinSpace(p[1..])
  }

  /** The phrases whose space-joined form differs from `target`, in their original order (slices.DeleteFunc). */
  function Without(phrases: seq<Phrase>, target: string): (r: seq<Phrase>)
    ensures |r| <= |phrases|
  {
    if phrases == [] then []
    else
      var rest := Without(phrases[1..], target);
      if JoinSpace(phrases[0]) == target then rest else [phrases[0]] + rest
  }

  /** Without keeps exactly the phrases that do not join to the target, and it is shorter iff one did. */
  lemma {:induction false} WithoutKeeps(phrases: seq<Phrase>, target: string)
    ensures forall p :: p in Without(phrases, target) <==> p in phrases && JoinSpace(p) != target
    ensures |Without(phrases, target)| < |phrases| <==> exists p :: p in phrases && JoinSpace(p) == target
  {
    if phrases != [] {
      var head := phrases[0];
      var tail := phrases[1..];
      WithoutKeeps(tail, target);
      assert phrases == [head] + tail;
      assert forall p :: p in phrases <==> p == head || p in tail;
      var rest := Without(tail, target);
      if JoinSpace(head) == target {
        assert Without(phrases, target) == rest;
        assert head in phrases;
      } else {
        assert Without(phrases, target) == [head] + rest;
        assert forall p :: p in [head] + rest <==> p == head || p in rest;
      }
    }
  }

  /** Without distributes over concatenation, so the order of the kept phrases is the stored order. */
  lemma {:induction false} WithoutConcat(a: seq<Phrase>, b: seq<Phrase>, target: string)
    ensures Without(a + b, target) == Without(a, target) + Without(b, target)
  {
    if a != [] {
      var ab := a + b;
      assert ab[0] == a[0];
      assert ab[1..] == a[1..] + b;
      WithoutConcat(a[1..], b, target);
      var tail := Without(a[1..], target) + Without(b, target);
      assert Without(ab[1..], target) == tail;
      if JoinSpace(a[0]) != target {
        assert Without(ab, target) == [a[0]] + tail;
        assert Without(a, target) == [a[0]] + Without(a[1..], target);
        assert [a[0]] + tail == ([a[0]] + Without(a[1..], target)) + Without(b, target);
      }
    } else {
      assert a + b == b;
    }
  }

  lemma WithoutSnoc(a: seq<Phrase>, x: Phrase, target: string)
    ensures Without(a + [x], target) == Without(a, target) + (if JoinSpace(x) == target then [] else [x])
  {
    WithoutConcat(a, [x], target);
    assert [x][1..] == [];
  }

  /** How one phrase is matched against a message (the closure passed to slices.ContainsFunc). */
  predicate PhraseMatches(phrase: Phrase, msg: string) {
    var text := Lower(msg);
    if |phrase| == 1 then phrase[0] in Fields(text)
    else forall k :: 0 <= k < |phrase| ==> Contains(text, phrase[k])
  }

  /** CheckMessage's result: some stored phrase matches. */
  predicate AnyMatches(phrases: seq<Phrase>, msg: string) {
    exists k :: 0 <= k < |phrases| && PhraseMatches(phrases[k], msg)
  }

  lemma NoPhrasesNoMatch(msg: string)
    ensures !AnyMatches([], msg)
  {
  }

  /** The loop over tokens is vacuous for a phrase of no tokens, so it matches every message. */
  lemma EmptyPhraseMatchesAll(phrases: seq<Phrase>, msg: string)
    requires [] in phrases
    ensures AnyMatches(phrases, msg)
  {
    var k :| 0 <= k < |phrases| && phrases[k] == [];
    assert PhraseMatches(phrases[k], msg);
  }

  /** A one-token match is a whole-word match, hence also a substring of the lower-cased message. */
  lemma SingleTokenIsSubstring(t: string, msg: string)
    requires PhraseMatches([t], msg)
    ensures Contains(Lower(msg), t)
  {
    FieldIsSubstring(Lower(msg), t);
  }

  /** Multi-token phrases ignore order and adjacency: phrases with the same tokens match the same messages. */
  lemma MultiTokenOrderFree(p: Phrase, q: Phrase, msg: string)
    requires |p| >= 2 && |q| >= 2
    requires forall t :: t in p <==> t in q
    ensures PhraseMatches(p, msg) <==> PhraseMatches(q, msg)
  {
    var text := Lower(msg);
    if PhraseMatches(p, msg) {
      forall k | 0 <= k < |q| ensures Contains(text, q[k]) {
        assert q[k] in p;
      }
    }
    if PhraseMatches(q, msg) {
      forall k | 0 <= k < |p| ensures Contains(text, p[k]) {
        assert p[k] in q;
      }
    }
  }

  /** "spam" matches the word in "buy spam now" but not the longer word "spammer". */
  lemma SpamExamples()
    ensures PhraseMatches(["spam"], "buy spam")
    ensures !PhraseMatches(["spam"], "spammer")
  {
    BuySpamFields();
    SpammerFields();
  }

  lemma BuySpamFields()
    ensures Lower("buy spam") == "buy spam"
    ensures Fields("buy spam") == ["buy", "spam"]
  {
    assert IsLower("buy spam");
    FieldsOfWord("spam");
    assert "buy spam" == "buy" + " " + "spam";
    FieldsCons("buy", " ", "spam");
  }

  lemma SpammerFields()
    ensures Lower("spammer") == "spammer"
    ensures Fields("spammer") == ["spammer"]
  {
    assert IsLower("spammer");
    FieldsOfWord("spammer");
  }

  /** ["buy", "now"] matches "now buy" (order-free) but not "buy later". */
  lemma BuyNowExamples()
    ensures PhraseMatches(["buy", "now"], "now buy")
    ensures !PhraseMatches(["buy", "now"], "buy later")
  {
    BuyNowMatches();
    BuyLaterMisses();
  }

  lemma BuyNowMatches()
    ensures PhraseMatches(["buy", "now"], "now buy")
  {
    var m := "now buy";
    assert IsLower(m);
    assert OccursAt(m, "now", 0);
    assert OccursAt(m, "buy", 4);
    var p: Phrase := ["buy", "now"];
    assert Contains(Lower(m), p[0]) && Contains(Lower(m), p[1]);
  }

  lemma BuyLaterMisses()
    ensures !PhraseMatches(["buy", "now"], "buy later")
  {
    var n := "buy later";
    assert IsLower(n);
    NotContainsFirstChar(n, "now");
    var p: Phrase := ["buy", "now"];
    assert !Contains(Lower(n), p[1]);
  }

  /** The phrase list of internal/bot/blacklist.go. */
  class Blacklist {
    var phrases: seq<Phrase>

    constructor ()
      ensures phrases == []
    {
      phrases := [];
    }

    /** toLowerSlice: the loop that lower-cases each word into a fresh slice. */
    static method ToLowerSlice(words: seq<string>) returns (result: seq<string>)
      ensures result == LowerAll(words)
    {
      result := [];
      var i := 0;
      while i < |words|
        invariant 0 <= i <= |words|
        invariant result == LowerAll(words[..i])
      {
        result := result + [Lower(words[i])];
        i := i + 1;
      }
      assert words[..i] == words;
    }

    /** AddPhrase appends the lower-cased phrase at the end, without removing duplicates. */
    method AddPhrase(words: seq<string>)
      modifies this
      ensures phrases == old(phrases) + [LowerAll(words)]
    {
      var lower := ToLowerSlice(words);
      phrases := phrases + [lower];
    }

    /** RemovePhrase deletes every phrase that joins to the joined lower-cased argument. */
    method RemovePhrase(words: seq<string>) returns (removed: bool)
      modifies this
      ensures phrases == Without(old(phrases), JoinSpace(LowerAll(words)))
      ensures removed <==> |phrases| < |old(phrases)|
    {
      var lower := ToLowerSlice(words);
      var target := JoinSpace(lower);
      var ps := phrases;
      var kept: seq<Phrase> := [];
      var i := 0;
      while i < |ps|
        invariant 0 <= i <= |ps|
        invariant kept == Without(ps[..i], target)
      {
        assert ps[..i + 1] == ps[..i] + [ps[i]];
        WithoutSnoc(ps[..i], ps[i], target);
        if JoinSpace(ps[i]) != target {
          kept := kept + [ps[i]];
        }
        i := i + 1;
      }
      assert ps[..i] == ps;
      phrases := kept;
      removed := |phrases| < |ps|;
    }

    /** CheckMessage: true iff some stored phrase matches; the list is not changed. */
    method CheckMessage(msg: string) returns (hit: bool)
      ensures hit == AnyMatches(phrases, msg)
    {
      var text := Lower(msg);
      var words := Fields(text);
      hit := false;
      var i := 0;
      while i < |phrases| && !hit
        invariant 0 <= i <= |phrases|
        invariant hit <==> exists k :: 0 <= k < i && PhraseMatches(phrases[k], msg)
      {
        var phrase := phrases[i];
        var m: bool;
        if |phrase| == 1 {
          m := phrase[0] in words;
        } else {
          m := true;
          var j := 0;
          while j < |phrase| && m
            invariant 0 <= j <= |phrase|
            invariant m <==> forall k :: 0 <= k < j ==> Contains(text, phrase[k])
          {
            m := Contains(text, phrase[j]);
            j := j + 1;
          }
        }
        assert m == PhraseMatches(phrase, msg);
        hit := m;
        i := i + 1;
      }
    }

    /** List returns an equal copy of the phrases. */
    method List() returns (copy: seq<Phrase>)
      ensures copy == phrases
    {
      copy := phrases;
    }
  }

  /** A phrase just added is found and removed again by RemovePhrase with the same words. */
  lemma AddThenRemove(phrases: seq<Phrase>, words: seq<string>)
    ensures |Without(phrases + [LowerAll(words)], JoinSpace(LowerAll(words)))| < |phrases| + 1
    ensures forall p :: p in Without(phrases + [LowerAll(words)], JoinSpace(LowerAll(words))) ==>
              JoinSpace(p) != JoinSpace(LowerAll(words))
  {
    WithoutKeeps(phrases + [LowerAll(words)], JoinSpace(LowerAll(words)));
    assert LowerAll(words) in phrases + [LowerAll(words)];
  }
}
