/** The word-frequency homework: clean a text, split it into words, drop
    the Persian stop words and count what is left. Reading the input file
    and writing the JSON output are left to the caller. */
module TextProcessor {
  import opened Seqs
  import opened Strings

  /** The fixed set of 29 Persian stop words. */
  const StopWords: set<string> := {
      "و", "در", "به", "از", "که", "این", "را", "با", "است", "برای",
      "آن", "یک", "هم", "تا", "نیز", "اما", "یا", "بر", "اگر", "هر",
      "چون", "باید", "می", "شد", "کند", "کرد", "شده", "دیگر", "همه"
  }

  predicate NotStopWord(w: string)
  {
    w !in StopWords
  }

  predicate IsStopWord(w: string)
  {
    w in StopWords
  }

  /** The three regular-expression classes of `clean_text` whose semantics
      are not modelled: the URL substitution, the email substitution, and the
      `\w` character class (letters, digits and underscore in the Unicode
      sense). */
  datatype Patterns = Patterns(
    removeUrls: string -> string,
    removeEmails: string -> string,
    isWord: char -> bool)

  /** The characters the pattern `[^\w\s]` leaves in place. */
  function KeepsChar(isWord: char -> bool): char -> bool
  {
    c => isWord(c) || IsSpace(c)
  }

  /** `re.sub(r"[^\w\s]", "", text)`: deletes every character that is
      neither a word character nor whitespace; every other character keeps
      its number of occurrences. */
  function StripPunctuation(text: string, isWord: char -> bool): (r: string)
    ensures forall i :: 0 <= i < |r| ==> isWord(r[i]) || IsSpace(r[i])
    ensures forall c :: multiset(r)[c] == if isWord(c) || IsSpace(c) then multiset(text)[c] else 0
  {
    FilterCountAll(text, KeepsChar(isWord));
    Filter(text, KeepsChar(isWord))
  }

  /** Punctuation stripping changes a text exactly when it contains a
      character that is neither a word character nor whitespace. */
  lemma StripPunctuationFixpoint(text: string, isWord: char -> bool)
    ensures StripPunctuation(text, isWord) == text
        <==> forall i :: 0 <= i < |text| ==> isWord(text[i]) || IsSpace(text[i])
  {
    FilterFixpoint(text, KeepsChar(isWord));
  }

  /** Punctuation stripping is idempotent. */
  lemma StripPunctuationIdempotent(text: string, isWord: char -> bool)
    ensures StripPunctuation(StripPunctuation(text, isWord), isWord) == StripPunctuation(text, isWord)
  {
    FilterIdempotent(text, KeepsChar(isWord));
  }

  /** Punctuation stripping works character by character: it distributes
      over concatenation, so the order of the kept characters is the input
      order. */
  lemma StripPunctuationAppend(a: string, b: string, isWord: char -> bool)
    ensures StripPunctuation(a + b, isWord) == StripPunctuation(a, isWord) + StripPunctuation(b, isWord)
  {
    FilterAppend(a, b, KeepsChar(isWord));
  }

  /** `clean_text`: URLs removed, then emails, then punctuation. The result
      holds only word characters and whitespace. */
  function CleanText(text: string, p: Patterns): (r: string)
    ensures forall i :: 0 <= i < |r| ==> p.isWord(r[i]) || IsSpace(r[i])
  {
    StripPunctuation(p.removeEmails(p.removeUrls(text)), p.isWord)
  }

  /** `remove_stopwords`: the words that are not stop words, in order. */
  function RemoveStopwords(words: seq<string>): (r: seq<string>)
    ensures forall i :: 0 <= i < |r| ==> r[i] !in StopWords
    ensures forall i :: 0 <= i < |r| ==> r[i] in words
    ensures forall i :: 0 <= i < |words| && words[i] !in StopWords ==> words[i] in r
    ensures forall w :: multiset(r)[w] == if w in StopWords then 0 else multiset(words)[w]
  {
    FilterCountAll(words, NotStopWord);
    Filter(words, NotStopWord)
  }

  /** Stop-word removal distributes over concatenation: it keeps the
      relative order of the words it keeps. */
  lemma RemoveStopwordsAppend(a: seq<string>, b: seq<string>)
    ensures RemoveStopwords(a + b) == RemoveStopwords(a) + RemoveStopwords(b)
  {
    FilterAppend(a, b, NotStopWord);
  }

  /** Stop-word removal is idempotent. */
  lemma RemoveStopwordsIdempotent(words: seq<string>)
    ensures RemoveStopwords(RemoveStopwords(words)) == RemoveStopwords(words)
  {
    FilterIdempotent(words, NotStopWord);
  }

  /** A word list is left unchanged exactly when it holds no stop word. */
  lemma RemoveStopwordsFixpoint(words: seq<string>)
    ensures RemoveStopwords(words) == words <==> forall i :: 0 <= i < |words| ==> words[i] !in StopWords
  {
    FilterFixpoint(words, NotStopWord);
  }

  /** One `Counter` update: the word's count goes up by one, starting at 1. */
  function Bump(counts: map<string, nat>, w: string): map<string, nat>
  {
    counts[w := if w in counts then counts[w] + 1 else 1]
  }

  /** `count_word_frequencies`: `dict(Counter(words))`, built by counting
      the words one at a time from the left. The keys are exactly the
      distinct words and each count is the number of occurrences. */
  function CountWordFrequencies(words: seq<string>): (counts: map<string, nat>)
    ensures forall w :: w in counts <==> w in words
    ensures forall w :: w in counts ==> counts[w] == multiset(words)[w]
    ensures forall w :: w in counts ==> counts[w] >= 1
  {
    if |words| == 0 then map[]
    else
      var n := |words| - 1;
      assert words == words[..n] + [words[n]];
      Bump(CountWordFrequencies(words[..n]), words[n])
  }

  /** A key of `counts`, chosen arbitrarily. */
  ghost function PickKey(counts: map<string, nat>): (w: string)
    requires |counts| > 0
    ensures w in counts
  {
    var w :| w in counts; w
  }

  /** The sum of all counts in the dictionary. */
  ghost function SumCounts(counts: map<string, nat>): nat
    decreases |counts|
  {
    if |counts| == 0 then 0
    else
      var w := PickKey(counts);
      counts[w] + SumCounts(counts - {w})
  }

  /** The sum does not depend on which key is taken out first. */
  lemma {:induction false} SumCountsRemove(counts: map<string, nat>, w: string)
    requires w in counts
    ensures SumCounts(counts) == counts[w] + SumCounts(counts - {w})
    decreases |counts|
  {
    var k := PickKey(counts);
    if k != w {
      assert counts - {k} - {w} == counts - {w} - {k};
      SumCountsRemove(counts - {k}, w);
      SumCountsRemove(counts - {w}, k);
    }
  }

  /** One `Counter` update adds one to the total. */
  lemma SumCountsBump(counts: map<string, nat>, w: string)
    ensures SumCounts(Bump(counts, w)) == SumCounts(counts) + 1
  {
    var b := Bump(counts, w);
    SumCountsRemove(b, w);
    BumpLeavesOthers(counts, w);
    if w in counts {
      SumCountsRemove(counts, w);
    } else {
      assert counts - {w} == counts;
    }
  }

  /** `Bump` changes no count but that of the bumped word. */
  lemma BumpLeavesOthers(counts: map<string, nat>, w: string)
    ensures Bump(counts, w) - {w} == counts - {w}
    ensures Bump(counts, w)[w] == (if w in counts then counts[w] else 0) + 1
  {
  }

  /** The counts add up to the number of words counted. */
  lemma {:induction false} CountsSumToLength(words: seq<string>)
    ensures SumCounts(CountWordFrequencies(words)) == |words|
  {
    if |words| > 0 {
      var n := |words| - 1;
      CountsSumToLength(words[..n]);
      SumCountsBump(CountWordFrequencies(words[..n]), words[n]);
    }
  }

  /** A small example: two "hello" and one "world" count as 2 and 1. */
  lemma CountWordFrequenciesExample()
    ensures CountWordFrequencies(["hello", "hello", "world"]) == map["hello" := 2, "world" := 1]
  {
    var ws := ["hello", "hello", "world"];
    var counts := CountWordFrequencies(ws);
    assert "hello" != "world";
    assert multiset(ws)["hello"] == 2 && multiset(ws)["world"] == 1;
    assert counts.Keys == {"hello", "world"};
  }

  /** The tokens `process` counts: the cleaned text split on whitespace. */
  function Tokens(text: string, p: Patterns): seq<string>
  {
    SplitWhitespace(CleanText(text, p))
  }

  /** The pure middle of `process`: clean, tokenise, drop stop words,
      count. Every key is a non-empty run of word characters that is not a
      stop word. */
  function WordFrequencies(text: string, p: Patterns): (counts: map<string, nat>)
    ensures forall w :: w in counts ==> IsToken(w) && w !in StopWords
    ensures forall w :: w in counts ==> forall i :: 0 <= i < |w| ==> p.isWord(w[i])
  {
    var kept := RemoveStopwords(Tokens(text, p));
    KeptTokensAreWords(text, p);
    CountWordFrequencies(kept)
  }

  /** The tokens that survive stop-word removal are runs of word characters
      and are not stop words. */
  lemma KeptTokensAreWords(text: string, p: Patterns)
    ensures forall k :: 0 <= k < |RemoveStopwords(Tokens(text, p))| ==>
      var w := RemoveStopwords(Tokens(text, p))[k];
      IsToken(w) && w !in StopWords && forall i :: 0 <= i < |w| ==> p.isWord(w[i])
  {
    var clean := CleanText(text, p);
    var ts := SplitWhitespace(clean);
    var kept := RemoveStopwords(ts);
    forall k | 0 <= k < |kept|
      ensures IsToken(kept[k]) && kept[k] !in StopWords
      ensures forall i :: 0 <= i < |kept[k]| ==> p.isWord(kept[k][i])
    {
      var w := kept[k];
      assert w in ts;
      var m :| 0 <= m < |ts| && ts[m] == w;
      forall i | 0 <= i < |w| ensures p.isWord(w[i]) {
        assert w[i] in clean;
      }
    }
  }

  /** End to end, the counts add up to the number of tokens of the cleaned
      text that are not stop words. */
  lemma WordFrequenciesSum(text: string, p: Patterns)
    ensures SumCounts(WordFrequencies(text, p)) == |Tokens(text, p)| - |Filter(Tokens(text, p), IsStopWord)|
  {
    var ts := Tokens(text, p);
    CountsSumToLength(RemoveStopwords(ts));
    FilterPartition(ts, NotStopWord, IsStopWord);
  }
}
