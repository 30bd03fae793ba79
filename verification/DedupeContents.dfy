/** Which memory records a dedupe plan deletes, in terms of their words and times. */
module DedupeContents {
  import opened Text
  import opened Wrappers
  import opened MemoryDedupe
  import opened DedupeFixpoint
  import DedupeKeys

  // ----- The words of a content -----

  /** The words of a text with whatever its first word starts with before them. */
  function WordsFrom(word: string, s: string): seq<string>
    decreases |s|
  {
    var ended := if word == "" then [] else [word];
    if s == "" then ended
    else if IsSpace(s[0]) then ended + WordsFrom("", s[1..])
    else WordsFrom(word + [s[0]], s[1..])
  }

  /** The runs of characters between spaces. */
  function Words(s: string): seq<string> {
    WordsFrom("", s)
  }

  function Spaced(words: seq<string>): string {
    if words == [] then "" else if |words| == 1 then words[0] else words[0] + " " + Spaced(words[1..])
  }

  predicate IsWord(word: string) {
    word != "" && forall c <- word :: !IsSpace(c)
  }

  lemma {:induction false} WordsAreWords(word: string, s: string)
    requires word == "" || IsWord(word)
    ensures forall w <- WordsFrom(word, s) :: IsWord(w)
    ensures word != "" ==> WordsFrom(word, s) != [] && word <= WordsFrom(word, s)[0]
    decreases |s|
  {
    hide IsSpace;
    if s != "" {
      if IsSpace(s[0]) {
        WordsAreWords("", s[1..]);
      } else {
        WordsAreWords(word + [s[0]], s[1..]);
      }
    }
  }

  lemma {:induction false} LeadingSpace(s: string)
    ensures WordsFrom("", TrimStart(s)) == WordsFrom("", s)
    decreases |s|
  {
    if s != "" && IsSpace(s[0]) {
      LeadingSpace(s[1..]);
      assert [] + WordsFrom("", s[1..]) == WordsFrom("", s[1..]);
    }
  }

  lemma {:induction false} TrailingSpace(word: string, s: string, c: char)
    requires IsSpace(c)
    ensures WordsFrom(word, s + [c]) == WordsFrom(word, s)
    decreases |s|
  {
    hide IsSpace;
    var longer := s + [c];
    if s == "" {
      assert longer == [c] && longer[1..] == "";
      assert WordsFrom("", longer[1..]) == [];
    } else {
      assert longer[0] == s[0] && longer[1..] == s[1..] + [c];
      TrailingSpace(if IsSpace(s[0]) then "" else word + [s[0]], s[1..], c);
    }
  }

  lemma {:induction false} TrimEndWords(s: string)
    ensures WordsFrom("", TrimEnd(s)) == WordsFrom("", s)
    decreases |s|
  {
    if s != "" && IsSpace(s[|s| - 1]) {
      var n := |s| - 1;
      TrimEndWords(s[..n]);
      assert s == s[..n] + [s[n]];
      TrailingSpace("", s[..n], s[n]);
    }
  }

  lemma SpacedCons(word: string, words: seq<string>)
    requires words != []
    ensures Spaced([word] + words) == word + " " + Spaced(words)
  {
    assert ([word] + words)[1..] == words;
  }

  lemma WordsStep(word: string, s: string)
    requires s != ""
    ensures WordsFrom(word, s)
         == if IsSpace(s[0]) then (if word == "" then [] else [word]) + WordsFrom("", s[1..])
            else WordsFrom(word + [s[0]], s[1..])
  {
  }

  lemma Ended(word: string)
    ensures Collapse("") == "" && Spaced(WordsFrom(word, "")) == word
  {
  }

  lemma {:induction false} CollapseWords(word: string, s: string)
    requires s == "" || !IsSpace(s[|s| - 1])
    requires word == "" ==> s == "" || !IsSpace(s[0])
    ensures word + Collapse(s) == Spaced(WordsFrom(word, s))
    decreases |s|, 1
  {
    hide IsSpace, Collapse, WordsFrom, Spaced, TrimStart;
    if s == "" {
      Ended(word);
    } else {
      DedupeKeys.CollapseStep(s);
      WordsStep(word, s);
      if IsSpace(s[0]) {
        CollapseAfterSpace(word, s);
      } else {
        CollapseWords(word + [s[0]], s[1..]);
        assert word + ([s[0]] + Collapse(s[1..])) == word + [s[0]] + Collapse(s[1..]);
      }
    }
  }

  lemma {:induction false} CollapseAfterSpace(word: string, s: string)
    requires s != "" && IsSpace(s[0]) && !IsSpace(s[|s| - 1]) && word != ""
    ensures word + " " + Collapse(TrimStart(s[1..])) == Spaced([word] + WordsFrom("", s[1..]))
    decreases |s|, 0
  {
    hide IsSpace, Collapse, WordsFrom, Spaced, TrimStart;
    var rest := TrimStart(s[1..]);
    RestKeepsLast(s);
    CollapseWords("", rest);
    LeadingSpace(s[1..]);
    FirstWordThere(rest);
    SpacedCons(word, WordsFrom("", rest));
    assert "" + Collapse(rest) == Collapse(rest);
  }

  /** Past a space, a text that ends in no space goes on with a word. */
  lemma RestKeepsLast(s: string)
    requires s != "" && IsSpace(s[0]) && !IsSpace(s[|s| - 1])
    ensures var rest := TrimStart(s[1..]);
      rest != "" && !IsSpace(rest[0]) && !IsSpace(rest[|rest| - 1])
  {
    assert s[1..] != "" && s[1..][|s| - 2] == s[|s| - 1];
    DedupeKeys.TrimStartKeepsLast(s[1..]);
    TrimStartEmpty(s[1..]);
  }

  lemma FirstWordThere(s: string)
    requires s != "" && !IsSpace(s[0])
    ensures WordsFrom("", s) != []
  {
    assert "" + [s[0]] == [s[0]];
    WordsAreWords([s[0]], s[1..]);
  }

  /** Normalized content is the words with single spaces between them. */
  lemma NormalizedIsWords(s: string)
    ensures NormalizeContent(s) == Spaced(Words(s))
  {
    hide Collapse, WordsFrom, Spaced, IsSpace;
    LeadingSpace(s);
    TrimEndWords(TrimStart(s));
    DedupeKeys.TrimIsTrimmed(s);
    CollapseWords("", Trim(s));
    assert "" + Collapse(Trim(s)) == Collapse(Trim(s));
  }

  lemma {:induction false} WordThrough(word: string, w: string, rest: string)
    requires forall c <- w :: !IsSpace(c)
    ensures WordsFrom(word, w + rest) == WordsFrom(word + w, rest)
    decreases |w|
  {
    hide IsSpace;
    if w == "" {
      assert w + rest == rest && word + w == word;
    } else {
      assert (w + rest)[0] == w[0] && (w + rest)[1..] == w[1..] + rest;
      WordThrough(word + [w[0]], w[1..], rest);
      assert word + [w[0]] + w[1..] == word + w;
    }
  }

  lemma {:induction false} WordsOfSpaced(words: seq<string>)
    requires forall w <- words :: IsWord(w)
    ensures Words(Spaced(words)) == words
    decreases |words|
  {
    if words != [] {
      var w, rest := words[0], words[1..];
      assert IsWord(w) && "" + w == w;
      if |words| == 1 {
        assert w + "" == w && words == [w];
        WordThrough("", w, "");
      } else {
        WordsOfSpaced(rest);
        var after := " " + Spaced(rest);
        assert w + " " + Spaced(rest) == w + after;
        assert after[1..] == Spaced(rest);
        WordThrough("", w, after);
        assert [w] + rest == words;
      }
    }
  }

  /** Two contents normalize alike exactly when they have the same words in the same order. */
  lemma SameContentIff(a: string, b: string)
    ensures NormalizeContent(a) == NormalizeContent(b) <==> Words(a) == Words(b)
  {
    hide NormalizeContent, WordsFrom, Spaced, IsWord;
    NormalizedIsWords(a);
    NormalizedIsWords(b);
    WordsAreWords("", a);
    WordsAreWords("", b);
    WordsOfSpaced(Words(a));
    WordsOfSpaced(Words(b));
  }

  /** A record takes part exactly when its content has a word. */
  lemma MattersIff(record: Candidate)
    ensures Matters(record) <==> Words(record.content) != []
  {
    hide NormalizeContent, WordsFrom;
    NormalizedIsWords(record.content);
    WordsAreWords("", record.content);
    if Words(record.content) != [] {
      assert IsWord(Words(record.content)[0]);
    }
  }

  // ----- What is deleted -----

  /** The earlier time, or any time before none; at the same time, or with none at all, the earlier place. */
  predicate Earlier(records: seq<Candidate>, j: nat, i: nat)
    requires j < |records| && i < |records|
  {
    match (records[j].time, records[i].time)
    case (Some(t), Some(u)) => t < u || (t == u && j < i)
    case (Some(_), None) => true
    case (None, Some(_)) => false
    case (None, None) => j < i
  }

  /** Both have words, and one label: the tier, two colons, and the words with single spaces between them. */
  predicate SameMemory(a: Candidate, b: Candidate) {
    && Words(a.content) != [] && Words(b.content) != []
    && a.tier + "::" + Spaced(Words(a.content)) == b.tier + "::" + Spaced(Words(b.content))
  }

  lemma SameMemoryIff(a: Candidate, b: Candidate)
    ensures SameMemory(a, b) <==> Matters(a) && Matters(b) && Key(a) == Key(b)
  {
    hide NormalizeContent, WordsFrom, Spaced, Matters;
    MattersIff(a);
    MattersIff(b);
    NormalizedIsWords(a.content);
    NormalizedIsWords(b.content);
  }

  lemma EarlierIff(records: seq<Candidate>, j: nat, i: nat)
    requires j < |records| && i < |records|
    ensures Earlier(records, j, i) <==> Precedes(records, j, i)
    ensures !(Earlier(records, i, j) && Earlier(records, j, i))
  {
  }

  /** A record is deleted exactly when the records hold the same memory from earlier. */
  lemma DeletesDuplicates(records: seq<Candidate>, i: nat)
    requires DistinctIds(records) && i < |records|
    ensures DeletesIn(PlanFor(records).groups, records[i].id) <==>
            exists j: nat :: j < |records| && SameMemory(records[j], records[i]) && Earlier(records, j, i)
  {
    hide PlanFor, DistinctIds, DeletesIn, Matters, Key, Precedes, Earlier, SameMemory, Keeper, Members;
    DeletesIff(records, i);
    var key := Key(records[i]);
    if Matters(records[i]) {
      KeeperIsFirst(records, key, i);
      var keep := Keeper(records, key);
      if i != keep {
        EarlierIff(records, keep, i);
        SameMemoryIff(records[keep], records[i]);
      } else if j: nat :| j < |records| && SameMemory(records[j], records[i]) && Earlier(records, j, i) {
        SameMemoryIff(records[j], records[i]);
        KeeperIsFirst(records, key, j);
        EarlierIff(records, i, j);
        EarlierIff(records, j, i);
      }
    } else if j: nat :| j < |records| && SameMemory(records[j], records[i]) && Earlier(records, j, i) {
      SameMemoryIff(records[j], records[i]);
    }
  }
}
