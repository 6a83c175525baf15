/**
 * The rule filter of the handlers: the ban-word test that short-circuits the classifier,
 * the fixed result it produces, and the list edits of `/add_ban_word` and `/remove_ban_word`.
 */
module BanWords {
  import opened Wrappers
  import opened Text
  import opened Scoring
  import opened Analyzer

  /** `any(word in text_lower for word in ban_words)`, scanning the list in order. */
  function AnyContained(textLower: string, banWords: seq<string>): bool {
    |banWords| > 0 && (Contains(textLower, banWords[0]) || AnyContained(textLower, banWords[1..]))
  }

  /** `_check_ban_words(text)`: the stored words are used as they are, the text is lowered. */
  function CheckBanWords(text: string, banWords: seq<string>): bool {
    AnyContained(Lower(text), banWords)
  }

  /** The filter fires exactly when some stored word occurs in the lowered text. */
  lemma {:induction false} CheckBanWordsSpec(text: string, banWords: seq<string>)
    ensures CheckBanWords(text, banWords)
        <==> (exists k :: 0 <= k < |banWords| && Contains(Lower(text), banWords[k]))
  {
    AnyContainedSpec(Lower(text), banWords);
  }

  lemma {:induction false} AnyContainedSpec(textLower: string, banWords: seq<string>)
    ensures AnyContained(textLower, banWords)
        <==> (exists k :: 0 <= k < |banWords| && Contains(textLower, banWords[k]))
  {
    if |banWords| > 0 {
      AnyContainedSpec(textLower, banWords[1..]);
      if Contains(textLower, banWords[0]) {
        assert 0 < |banWords| && Contains(textLower, banWords[0]);
      }
      if exists k :: 0 <= k < |banWords| && Contains(textLower, banWords[k]) {
        var k :| 0 <= k < |banWords| && Contains(textLower, banWords[k]);
        if k > 0 {
          assert banWords[1..][k - 1] == banWords[k];
        }
      }
    }
  }

  /** An empty list never fires; a stored empty string fires on every text. */
  lemma CheckBanWordsEdgeCases(text: string, banWords: seq<string>)
    ensures !CheckBanWords(text, [])
    ensures "" in banWords ==> CheckBanWords(text, banWords)
  {
    if "" in banWords {
      var k :| 0 <= k < |banWords| && banWords[k] == "";
      EmptyContainedEverywhere(Lower(text));
      CheckBanWordsSpec(text, banWords);
    }
  }

  /** The test is case-insensitive in the text: lowering the text first changes nothing. */
  lemma CheckBanWordsIgnoresTextCase(text: string, banWords: seq<string>)
    ensures CheckBanWords(Lower(text), banWords) == CheckBanWords(text, banWords)
  {
    LowerIdempotent(text);
  }

  /** A matching word is found inside a longer word, and a capitalised text still matches. */
  lemma CheckBanWordsExample()
    ensures CheckBanWords("Buy CHEAP stuff", ["cheap"])
    ensures CheckBanWords("concatenate", ["cat"])
  {
    var text := "Buy CHEAP stuff";
    var lowered := Lower(text);
    assert LowerChar('C') == 'c' && LowerChar('H') == 'h' && LowerChar('E') == 'e';
    assert LowerChar('A') == 'a' && LowerChar('P') == 'p';
    assert lowered[4..9] == "cheap";
    ContainsAt(lowered, "cheap", 4);
    AnyContainedSpec(lowered, ["cheap"]);
    var other := "concatenate";
    assert forall i :: 0 <= i < |other| ==> !IsUpperChar(other[i]);
    assert Lower(other) == other;
    ContainsAt(other, "cat", 3);
    AnyContainedSpec(other, ["cat"]);
  }

  /** A stored word holding a capital can never match, since the text it is tested against is lowered. */
  lemma {:induction false} CapitalisedWordNeverMatches(text: string, word: string)
    requires exists i :: 0 <= i < |word| && IsUpperChar(word[i])
    ensures !CheckBanWords(text, [word])
  {
    var i :| 0 <= i < |word| && IsUpperChar(word[i]);
    var lowered := Lower(text);
    forall p | 0 <= p <= |lowered| - |word|
      ensures !OccursAt(lowered, word, p)
    {
      assert lowered[p..p + |word|][i] == LowerChar(text[p + i]);
    }
    CheckBanWordsSpec(text, [word]);
  }

  const BannedWordReason: string := "Запрещенное слово"

  /** `_create_ban_word_violation()`: the fixed result of a ban-word hit. */
  function CreateBanWordViolation(): (r: ViolationResult)
    ensures r.violation && r.reason == Some(BannedWordReason)
    ensures r.spam == 90.0 && r.toxic == 40.0 && r.danger == 70.0 && r.violationScore == 90.0
  {
    ViolationResult(90.0, 40.0, 70.0, 90.0, true, Some(BannedWordReason))
  }

  /**
   * The fixed result bypasses the scorer: the scorer would rate its own sub-scores 100, not 90,
   * and the verdict is a violation even at sensitivities whose threshold is above 90.
   */
  lemma BanWordResultBypassesScorer()
    ensures CompositeScore(90.0, 40.0, 70.0) == 100.0
    ensures CreateBanWordViolation().violationScore == 90.0
    ensures CreateBanWordViolation().violation && !IsViolation(90.0, 5)
  {
    assert Normalize(90.0) == 0.9 && Normalize(40.0) == 0.4 && Normalize(70.0) == 0.7;
  }

  /** `ban_words.append(word)` unless the word is already listed. */
  function WithWord(banWords: seq<string>, word: string): (r: seq<string>)
    ensures word in r
    ensures word in banWords ==> r == banWords
    ensures word !in banWords ==> r == banWords + [word]
  {
    if word in banWords then banWords else banWords + [word]
  }

  /** `ban_words.remove(word)`: drops the first occurrence only; a missing word leaves the list alone. */
  function WithoutWord(banWords: seq<string>, word: string): (r: seq<string>)
    ensures word !in banWords ==> r == banWords
    ensures word in banWords ==> |r| == |banWords| - 1
  {
    if banWords == [] then []
    else if banWords[0] == word then banWords[1..]
    else [banWords[0]] + WithoutWord(banWords[1..], word)
  }

  /** Removing takes away one copy of the word, when there is one. */
  lemma {:induction false} WithoutWordMultiset(banWords: seq<string>, word: string)
    ensures multiset(WithoutWord(banWords, word)) == multiset(banWords) - multiset{word}
  {
    if banWords != [] {
      assert banWords == [banWords[0]] + banWords[1..];
      if banWords[0] != word {
        WithoutWordMultiset(banWords[1..], word);
      }
    }
  }

  predicate NoDuplicates(words: seq<string>) {
    forall i, j :: 0 <= i < j < |words| ==> words[i] != words[j]
  }

  /** Adding never introduces a duplicate. */
  lemma WithWordKeepsDistinct(banWords: seq<string>, word: string)
    requires NoDuplicates(banWords)
    ensures NoDuplicates(WithWord(banWords, word))
  {
  }

  /** Removing cuts out exactly the first occurrence: what precedes it and what follows it stay in order. */
  lemma {:induction false} WithoutWordCutsFirst(banWords: seq<string>, word: string, k: nat)
    requires k < |banWords| && banWords[k] == word
    requires forall j :: 0 <= j < k ==> banWords[j] != word
    ensures WithoutWord(banWords, word) == banWords[..k] + banWords[k + 1..]
  {
    if k > 0 {
      WithoutWordCutsFirst(banWords[1..], word, k - 1);
      assert banWords[1..][..k - 1] == banWords[1..k];
      assert banWords[1..][k..] == banWords[k + 1..];
    }
  }

  /** Removing a word from a list without duplicates leaves no copy of it. */
  lemma WithoutWordRemovesAll(banWords: seq<string>, word: string)
    requires NoDuplicates(banWords)
    requires word in banWords
    ensures word !in WithoutWord(banWords, word)
    ensures forall w :: w in banWords && w != word ==> w in WithoutWord(banWords, word)
  {
    var k :| 0 <= k < |banWords| && banWords[k] == word;
    WithoutWordCutsFirst(banWords, word, k);
  }

  /** Adding a new word and then removing it restores the list. */
  lemma {:induction false} AddThenRemove(banWords: seq<string>, word: string)
    requires word !in banWords
    ensures WithoutWord(WithWord(banWords, word), word) == banWords
  {
    if banWords == [] {
      assert WithWord(banWords, word) == [word];
    } else {
      AddThenRemove(banWords[1..], word);
      assert (banWords + [word])[1..] == banWords[1..] + [word];
      assert WithWord(banWords[1..], word) == banWords[1..] + [word];
    }
  }

  /** Once a word is added, every text whose lowered form contains it is caught. */
  lemma AddedWordTakesEffect(text: string, banWords: seq<string>, word: string)
    requires Contains(Lower(text), word)
    ensures CheckBanWords(text, WithWord(banWords, word))
  {
    var r := WithWord(banWords, word);
    var k :| 0 <= k < |r| && r[k] == word;
    CheckBanWordsSpec(text, r);
  }

  /** Once a word is removed from a list without duplicates, only the other words still catch a text. */
  lemma RemovedWordNoLongerCounts(text: string, banWords: seq<string>, word: string)
    requires NoDuplicates(banWords)
    ensures CheckBanWords(text, WithoutWord(banWords, word))
        <==> (exists k :: 0 <= k < |banWords| && banWords[k] != word && Contains(Lower(text), banWords[k]))
  {
    var r := WithoutWord(banWords, word);
    CheckBanWordsSpec(text, r);
    if word in banWords {
      var k :| 0 <= k < |banWords| && banWords[k] == word;
      WithoutWordCutsFirst(banWords, word, k);
      assert |r| == |banWords| - 1;
      assert forall j :: 0 <= j < k ==> r[j] == banWords[j];
      assert forall j :: k <= j < |r| ==> r[j] == banWords[j + 1];
      if exists j :: 0 <= j < |r| && Contains(Lower(text), r[j]) {
        var j :| 0 <= j < |r| && Contains(Lower(text), r[j]);
        if j < k {
          assert banWords[j] != word && Contains(Lower(text), banWords[j]);
        } else {
          assert banWords[j + 1] != word && Contains(Lower(text), banWords[j + 1]);
        }
      }
      if exists i :: 0 <= i < |banWords| && banWords[i] != word && Contains(Lower(text), banWords[i]) {
        var i :| 0 <= i < |banWords| && banWords[i] != word && Contains(Lower(text), banWords[i]);
        if i < k {
          assert r[i] == banWords[i];
        } else {
          assert i != k;
          assert r[i - 1] == banWords[i];
        }
      }
    } else {
      assert forall i :: 0 <= i < |banWords| ==> banWords[i] != word;
    }
  }
}
