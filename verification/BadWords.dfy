/** The logits processor that keeps banned token sequences out of a generation. */
module BadWords {
  import opened Wrappers

  /** A logit: a number, or minus infinity. */
  datatype Logit = NegInf | Fin(value: real)

  function Plus(a: Logit, b: Logit): Logit {
    if a.NegInf? || b.NegInf? then NegInf else Fin(a.value + b.value)
  }

  /** Adds minus infinity, or nothing, to one element. */
  method AddTo(bias: array<Logit>, i: nat, ban: bool)
    requires i < bias.Length
    modifies bias
    ensures bias[..] == if ban then old(bias[..])[i := NegInf] else old(bias[..])
  {
    bias[i] := Plus(bias[i], if ban then NegInf else Fin(0.0));
  }

  datatype Outcome = Logits(values: seq<Logit>) | ValueError(invalid: seq<int>) | IndexError

  /** The word ends the token sequence. */
  predicate Ends(tokens: seq<int>, word: seq<int>) {
    |word| <= |tokens| && tokens[|tokens| - |word|..] == word
  }

  /** Choosing the token next would complete a banned sequence. */
  ghost predicate Banned(words: seq<seq<int>>, past: seq<int>, token: int) {
    exists k :: 0 <= k < |words| && Ends(past + [token], words[k])
  }

  /** The token ids outside the vocabulary, in order. */
  function InvalidIn(word: seq<int>, vocab: nat): seq<int> {
    if word == [] then [] else
    InvalidIn(word[..|word| - 1], vocab) + if 0 <= word[|word| - 1] < vocab then [] else [word[|word| - 1]]
  }

  function Invalid(words: seq<seq<int>>, vocab: nat): seq<int> {
    if words == [] then [] else Invalid(words[..|words| - 1], vocab) + InvalidIn(words[|words| - 1], vocab)
  }

  ghost predicate AllValid(words: seq<seq<int>>, vocab: nat) {
    forall k, i :: 0 <= k < |words| && 0 <= i < |words[k]| ==> 0 <= words[k][i] < vocab
  }

  lemma {:induction false} NoneInvalidIn(word: seq<int>, vocab: nat)
    ensures InvalidIn(word, vocab) == [] <==> forall i :: 0 <= i < |word| ==> 0 <= word[i] < vocab
  {
    if word != [] {
      NoneInvalidIn(word[..|word| - 1], vocab);
      assert forall i :: 0 <= i < |word| - 1 ==> word[..|word| - 1][i] == word[i];
    }
  }

  /** Nothing is reported exactly when every id is in the vocabulary. */
  lemma {:induction false} NoneInvalid(words: seq<seq<int>>, vocab: nat)
    ensures Invalid(words, vocab) == [] <==> AllValid(words, vocab)
  {
    if words != [] {
      var n := |words| - 1;
      NoneInvalid(words[..n], vocab);
      NoneInvalidIn(words[n], vocab);
      assert forall k :: 0 <= k < n ==> words[..n][k] == words[k];
    }
  }

  /** How often the id occurs in the words. */
  function Count(words: seq<seq<int>>, id: int): nat {
    if words == [] then 0 else Count(words[..|words| - 1], id) + multiset(words[|words| - 1])[id]
  }

  lemma {:induction false} InvalidInAre(word: seq<int>, vocab: nat, id: int)
    ensures multiset(InvalidIn(word, vocab))[id] == if 0 <= id < vocab then 0 else multiset(word)[id]
  {
    if word != [] {
      InvalidInAre(word[..|word| - 1], vocab, id);
      assert word == word[..|word| - 1] + [word[|word| - 1]];
    }
  }

  /** Every occurrence of an id outside the vocabulary is reported, and nothing else. */
  lemma {:induction false} InvalidAre(words: seq<seq<int>>, vocab: nat, id: int)
    ensures multiset(Invalid(words, vocab))[id] == if 0 <= id < vocab then 0 else Count(words, id)
  {
    if words != [] {
      InvalidAre(words[..|words| - 1], vocab, id);
      InvalidInAre(words[|words| - 1], vocab, id);
    }
  }

  class NoBadWordsLogitsProcessor {
    const badWordsIds: seq<seq<int>>
    var wordBias: Option<seq<Logit>>

    /** Once built, the bias bans exactly the one-token words. */
    ghost predicate Valid()
      reads this
    {
      wordBias.Some? ==>
        && AllValid(badWordsIds, |wordBias.value|)
        && forall i :: 0 <= i < |wordBias.value| ==> wordBias.value[i] == if [i] in badWordsIds then NegInf
           else Fin(0.0)
    }

    constructor (words: seq<seq<int>>)
      ensures Valid() && badWordsIds == words && wordBias == None
    {
      badWordsIds, wordBias := words, None;
    }

    method CheckTokenIdsBounds(vocab: nat) returns (invalid: seq<int>)
      ensures invalid == Invalid(badWordsIds, vocab)
    {
      invalid := [];
      for k := 0 to |badWordsIds|
        invariant invalid == Invalid(badWordsIds[..k], vocab)
      {
        var word := badWordsIds[k];
        ghost var before := invalid;
        for i := 0 to |word|
          invariant invalid == before + InvalidIn(word[..i], vocab)
        {
          assert word[..i + 1][..i] == word[..i];
          if word[i] < 0 || word[i] >= vocab {
            invalid := invalid + [word[i]];
          }
        }
        assert word[..|word|] == word;
        assert badWordsIds[..k + 1][..k] == badWordsIds[..k];
      }
      assert badWordsIds[..|badWordsIds|] == badWordsIds;
    }

    /** Builds the bias of the one-token words, unless some id is out of bounds. */
    method InitWordBias(vocab: nat) returns (invalid: seq<int>)
      requires Valid() && wordBias.None?
      modifies this
      ensures Valid() && invalid == Invalid(badWordsIds, vocab)
      ensures invalid == [] ==> wordBias.Some? && |wordBias.value| == vocab
      ensures invalid != [] ==> wordBias.None?
    {
      invalid := CheckTokenIdsBounds(vocab);
      NoneInvalid(badWordsIds, vocab);
      if invalid != [] {
        return;
      }
      var bias := new Logit[vocab](_ => Fin(0.0));
      for k := 0 to |badWordsIds|
        invariant wordBias.None?
        invariant forall i :: 0 <= i < vocab ==> bias[i] == if [i] in badWordsIds[..k] then NegInf else Fin(0.0)
      {
        var word := badWordsIds[k];
        assert badWordsIds[..k + 1] == badWordsIds[..k] + [word];
        if |word| == 1 {
          assert word == [word[0]];
          bias[word[0]] := NegInf;
        }
      }
      assert badWordsIds[..|badWordsIds|] == badWordsIds;
      wordBias := Some(bias[..]);
    }

    /** The bias of longer words against the past; looking up the last token of an empty word fails. */
    method LastTokenBias(past: seq<int>, vocab: nat) returns (bias: Option<seq<Logit>>)
      requires AllValid(badWordsIds, vocab)
      ensures bias.None? <==> [] in badWordsIds
      ensures bias.Some? ==> |bias.value| == vocab && IsBias(bias.value, badWordsIds, |badWordsIds|, past)
    {
      hide IsBias, Awaits;
      var lastTokenBias := new Logit[vocab](_ => Fin(0.0));
      NoBias(lastTokenBias[..], badWordsIds, past);
      for k := 0 to |badWordsIds|
        invariant forall j :: 0 <= j < k ==> |badWordsIds[j]| > 0
        invariant IsBias(lastTokenBias[..], badWordsIds, k, past)
      {
        var word := badWordsIds[k];
        BiasStep(lastTokenBias[..], badWordsIds, k, past);
        if |word| == 1 {
          continue;
        }
        if |word| > |past| + 1 {
          continue;
        }
        if |word| == 0 {
          assert badWordsIds[k] == [];
          return None;
        }
        var prefixLength, lastTokenId := |word| - 1, word[|word| - 1];
        var isMatch := past[|past| - prefixLength..] == word[..prefixLength];
        AddTo(lastTokenBias, lastTokenId, isMatch);
      }
      bias := Some(lastTokenBias[..]);
    }

    /** Ids outside the vocabulary are reported, and an empty word is an error. Otherwise exactly the tokens that
        would complete a banned sequence become minus infinity, and all other logits are unchanged. */
    method Call(past: seq<int>, logits: seq<Logit>) returns (outcome: Outcome)
      requires Valid() && (wordBias.Some? ==> |wordBias.value| == |logits|)
      modifies this
      ensures Valid()
      ensures old(wordBias).Some? ==> wordBias == old(wordBias)
      ensures outcome.ValueError? <==> !AllValid(badWordsIds, |logits|)
      ensures outcome.ValueError? ==> outcome.invalid == Invalid(badWordsIds, |logits|) && wordBias.None?
      ensures !outcome.ValueError? ==>
              wordBias.Some? && |wordBias.value| == |logits| && (outcome.IndexError? <==> [] in badWordsIds)
      ensures outcome.Logits? ==> |outcome.values| == |logits| && forall i :: 0 <= i < |logits| ==>
                outcome.values[i] == if Banned(badWordsIds, past, i) then NegInf else logits[i]
    {
      hide Ends, Invalid, LongBanned, Banned;
      NoneInvalid(badWordsIds, |logits|);
      if wordBias.None? {
        var invalid := InitWordBias(|logits|);
        if invalid != [] {
          return ValueError(invalid);
        }
      }
      var lastTokenBias := LastTokenBias(past, |logits|);
      if lastTokenBias.None? {
        return IndexError;
      }
      var single, long := wordBias.value, lastTokenBias.value;
      forall i | 0 <= i < |logits|
        ensures Banned(badWordsIds, past, i) <==> [i] in badWordsIds || LongBanned(badWordsIds, |badWordsIds|, past, i)
      {
        BannedSplits(badWordsIds, past, i);
      }
      outcome := Logits(Sum(Sum(logits, single), long));
    }
  }

  /** Element-wise sum. */
  function Sum(a: seq<Logit>, b: seq<Logit>): seq<Logit>
    requires |a| == |b|
  {
    seq(|a|, i requires 0 <= i < |a| => Plus(a[i], b[i]))
  }

  /** Choosing the token would complete one of the first k words, of at least two tokens. */
  ghost predicate LongBanned(words: seq<seq<int>>, k: nat, past: seq<int>, token: int)
    requires k <= |words|
  {
    exists j :: 0 <= j < k && |words[j]| >= 2 && Ends(past + [token], words[j])
  }

  /** A word of at least two tokens is completed by its last token when the rest ends the past. */
  lemma Completes(past: seq<int>, token: int, word: seq<int>)
    requires |word| >= 2
    ensures Ends(past + [token], word) <==>
            |word| <= |past| + 1 && word[|word| - 1] == token && past[|past| - (|word| - 1)..] == word[..|word| - 1]
  {
    var n, all := |word| - 1, past + [token];
    assert word == word[..n] + [word[n]];
    if |word| <= |all| {
      assert all[|all| - |word|..] == past[|past| - n..] + [token];
    }
  }

  /** The past ends in all of the word but its last token. */
  predicate Awaits(past: seq<int>, word: seq<int>) {
    2 <= |word| <= |past| + 1 && past[|past| - (|word| - 1)..] == word[..|word| - 1]
  }

  lemma LongStep(words: seq<seq<int>>, k: nat, past: seq<int>, token: int)
    requires k < |words|
    ensures var w := words[k];
            LongBanned(words, k + 1, past, token) <==>
              || LongBanned(words, k, past, token)
              || (Awaits(past, w) && w[|w| - 1] == token)
  {
    hide Ends;
    if |words[k]| >= 2 {
      Completes(past, token, words[k]);
    }
  }

  /** The bias of the first k words: minus infinity for the tokens that complete one of at least two tokens. */
  ghost predicate IsBias(bias: seq<Logit>, words: seq<seq<int>>, k: nat, past: seq<int>)
    requires k <= |words|
  {
    forall i :: 0 <= i < |bias| ==> bias[i] == if LongBanned(words, k, past, i) then NegInf else Fin(0.0)
  }

  lemma NoBias(bias: seq<Logit>, words: seq<seq<int>>, past: seq<int>)
    requires forall i :: 0 <= i < |bias| ==> bias[i] == Fin(0.0)
    ensures IsBias(bias, words, 0, past)
  {
  }

  /** What the next word does to the bias. */
  lemma BiasStep(bias: seq<Logit>, words: seq<seq<int>>, k: nat, past: seq<int>)
    requires k < |words| && IsBias(bias, words, k, past)
    requires words[k] != [] ==> 0 <= words[k][|words[k]| - 1] < |bias|
    ensures var w := words[k];
            && (Awaits(past, w) <==> 2 <= |w| <= |past| + 1 && past[|past| - (|w| - 1)..] == w[..|w| - 1])
            && IsBias(if Awaits(past, w) then bias[w[|w| - 1] := NegInf] else bias, words, k + 1, past)
  {
    hide LongBanned;
    var w := words[k];
    var next := if Awaits(past, w) then bias[w[|w| - 1] := NegInf] else bias;
    forall i | 0 <= i < |next|
      ensures next[i] == if LongBanned(words, k + 1, past, i) then NegInf else Fin(0.0)
    {
      LongStep(words, k, past, i);
    }
  }

  lemma BannedSplits(words: seq<seq<int>>, past: seq<int>, token: int)
    requires [] !in words
    ensures Banned(words, past, token) <==> [token] in words || LongBanned(words, |words|, past, token)
  {
    assert Ends(past + [token], [token]);
    forall k | 0 <= k < |words| && |words[k]| < 2
      ensures words[k] != [] && (Ends(past + [token], words[k]) <==> words[k] == [token])
    {
      assert words[k] in words;
      var all := past + [token];
      assert all[|all| - 1..] == [token];
    }
    if [token] in words {
      var k :| 0 <= k < |words| && words[k] == [token];
    }
  }

  /** The word occurs somewhere in the tokens. */
  ghost predicate Occurs(tokens: seq<int>, word: seq<int>) {
    exists j :: 0 <= j <= |tokens| && Ends(tokens[..j], word)
  }

  ghost predicate Clean(words: seq<seq<int>>, tokens: seq<int>) {
    forall k :: 0 <= k < |words| ==> !Occurs(tokens, words[k])
  }

  /** Every token was chosen among those that were not banned at the time. */
  ghost predicate Obeys(words: seq<seq<int>>, tokens: seq<int>) {
    forall n :: 0 <= n < |tokens| ==> !Banned(words, tokens[..n], tokens[n])
  }

  /** A generation never picks a banned token exactly when it contains no banned sequence:
      the processor keeps all of them out, and forbids nothing else. */
  lemma SafeGeneration(words: seq<seq<int>>, tokens: seq<int>)
    requires [] !in words
    ensures Obeys(words, tokens) <==> Clean(words, tokens)
  {
    hide Ends;
    forall n | 0 <= n < |tokens|
      ensures tokens[..n] + [tokens[n]] == tokens[..n + 1]
    {
    }
    if Obeys(words, tokens) {
      forall k | 0 <= k < |words|
        ensures !Occurs(tokens, words[k])
      {
        ObeyedWordIsAbsent(words, tokens, k);
      }
    }
    if Clean(words, tokens) {
      forall n | 0 <= n < |tokens|
        ensures !Banned(words, tokens[..n], tokens[n])
      {
        assert forall k :: 0 <= k < |words| ==> !Occurs(tokens, words[k]);
        assert forall k :: 0 <= k < |words| ==> !Ends(tokens[..n + 1], words[k]);
      }
    }
  }

  lemma ObeyedWordIsAbsent(words: seq<seq<int>>, tokens: seq<int>, k: nat)
    requires [] !in words && Obeys(words, tokens) && k < |words|
    ensures !Occurs(tokens, words[k])
  {
    assert words[k] in words;
    forall j | 0 <= j <= |tokens|
      ensures !Ends(tokens[..j], words[k])
    {
      if j > 0 {
        assert tokens[..j] == tokens[..j - 1] + [tokens[j - 1]];
        assert !Banned(words, tokens[..j - 1], tokens[j - 1]);
      }
    }
  }

  /** The first n picks less those that were impossible or banned when they were made. */
  ghost function Accepted(words: seq<seq<int>>, logits: seq<seq<Logit>>, picks: seq<nat>, n: nat): seq<int>
    requires n <= |picks| == |logits| && forall k :: 0 <= k < n ==> picks[k] < |logits[k]|
  {
    if n == 0 then [] else
    var before := Accepted(words, logits, picks, n - 1);
    if logits[n - 1][picks[n - 1]] == NegInf || Banned(words, before, picks[n - 1]) then before
      else before + [picks[n - 1]]
  }

  lemma {:induction false} AcceptedObeys(words: seq<seq<int>>, logits: seq<seq<Logit>>, picks: seq<nat>, n: nat)
    requires n <= |picks| == |logits| && forall k :: 0 <= k < n ==> picks[k] < |logits[k]|
    ensures Obeys(words, Accepted(words, logits, picks, n))
  {
    if n > 0 {
      AcceptedObeys(words, logits, picks, n - 1);
      var before, now := Accepted(words, logits, picks, n - 1), Accepted(words, logits, picks, n);
      hide Banned, Accepted;
      assert |now| > |before| ==> now[..|before|] == before;
      assert forall k :: 0 <= k < |before| && now[..|before|] == before ==> now[..k] == before[..k];
    }
  }

  lemma {:induction false} AcceptedAll(words: seq<seq<int>>, logits: seq<seq<Logit>>, picks: seq<nat>, n: nat)
    requires n <= |picks| == |logits| && Obeys(words, picks)
    requires forall k :: 0 <= k < |picks| ==> picks[k] < |logits[k]| && logits[k][picks[k]] != NegInf
    ensures Accepted(words, logits, picks, n) == picks[..n]
  {
    hide Banned;
    if n > 0 {
      AcceptedAll(words, logits, picks, n - 1);
      assert picks[..n] == picks[..n - 1] + [picks[n - 1]];
      assert !Banned(words, picks[..n - 1], picks[n - 1]);
    }
  }

  /** Sampling with the processor takes exactly the picks that are possible and complete no banned sequence. Whatever
      the logits and the picks, no banned sequence is generated, and picks that contain none are all taken. */
  method Generate(words: seq<seq<int>>, vocab: nat, logits: seq<seq<Logit>>, picks: seq<nat>) returns (tokens: seq<int>)
    requires [] !in words && AllValid(words, vocab) && |logits| == |picks|
    requires forall n :: 0 <= n < |picks| ==> |logits[n]| == vocab && picks[n] < vocab
    ensures tokens == Accepted(words, logits, picks, |picks|) && Clean(words, tokens)
    ensures (forall n :: 0 <= n < |picks| ==> logits[n][picks[n]] != NegInf) && Clean(words, picks) ==> tokens == picks
  {
    hide Banned, Clean, Obeys;
    var processor := new NoBadWordsLogitsProcessor(words);
    tokens := [];
    for n := 0 to |picks|
      invariant processor.Valid() && (processor.wordBias.Some? ==> |processor.wordBias.value| == vocab)
      invariant fresh(processor) && processor.badWordsIds == words && tokens == Accepted(words, logits, picks, n)
    {
      var outcome := processor.Call(tokens, logits[n]);
      if outcome.values[picks[n]] != NegInf {
        tokens := tokens + [picks[n]];
      }
    }
    AcceptedObeys(words, logits, picks, |picks|);
    SafeGeneration(words, tokens);
    SafeGeneration(words, picks);
    if (forall n :: 0 <= n < |picks| ==> logits[n][picks[n]] != NegInf) && Clean(words, picks) {
      AcceptedAll(words, logits, picks, |picks|);
    }
  }
}
