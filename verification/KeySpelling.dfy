/** Which key a spelling denotes: every string is words with gaps between them, and
    the normaliser reads it as these words. */
module KeySpelling {
  import opened Sequences
  import opened Text
  import opened KeyScreen

  /** A word with the gap before it. */
  datatype Part = Part(gap: string, word: string)

  function Written(parts: seq<Part>): string {
    if parts == [] then ""
    else
      var last := parts[|parts| - 1];
      Written(parts[..|parts| - 1]) + last.gap + last.word
  }

  /** The words with single underscores between them. */
  function JoinedWords(parts: seq<Part>): string {
    if parts == [] then ""
    else if |parts| == 1 then parts[0].word
    else JoinedWords(parts[..|parts| - 1]) + "_" + parts[|parts| - 1].word
  }

  predicate Gap(s: string) {
    forall i :: 0 <= i < |s| ==> !IsAlnum(s[i])
  }

  /** A capital behind a lower-case letter or digit: where a new word begins. */
  predicate HumpAt(s: string, i: nat) {
    0 < i < |s| && IsUpper(s[i]) && IsLowerOrDigit(s[i - 1])
  }

  predicate Humpless(s: string) {
    forall i :: 0 < i < |s| ==> !HumpAt(s, i)
  }

  /** Letters and digits within which no new word begins. */
  predicate Word(s: string) {
    s != "" && (forall i :: 0 <= i < |s| ==> IsAlnum(s[i])) && Humpless(s)
  }

  /** Gaps and words alternate; between two words without a gap a new one begins. */
  predicate Spelt(parts: seq<Part>) {
    && (forall i :: 0 <= i < |parts| ==> Gap(parts[i].gap) && Word(parts[i].word))
    && (forall i :: 0 < i < |parts| && parts[i].gap == "" ==>
          IsUpper(parts[i].word[0]) && IsLowerOrDigit(parts[i - 1].word[|parts[i - 1].word| - 1]))
  }

  // ---------- the two passes on pieces ----------

  lemma CamelSplitOneMore(s: string, c: char)
    ensures CamelSplit(s + [c])
            == CamelSplit(s) + if s != "" && IsUpper(c) && IsLowerOrDigit(s[|s| - 1]) then ['_', c] else [c]
  {
    assert (s + [c])[..|s|] == s;
  }

  lemma SeparateOneMore(s: string, c: char)
    ensures Separate(s + [c])
            == Separate(s) + if IsAlnum(c) then [c] else if s != "" && !IsAlnum(s[|s| - 1]) then [] else ['_']
  {
    assert (s + [c])[..|s|] == s;
  }

  lemma {:induction false} CamelSplitOfAppend(a: string, b: string)
    requires b != ""
    ensures CamelSplit(a + b) == CamelSplit(a) + (if HumpAt(a + b, |a|) then "_" else "") + CamelSplit(b)
  {
    hide IsUpper, IsLowerOrDigit, CamelSplit;
    var n := |b| - 1;
    var init, c := b[..n], b[n];
    assert b == init + [c] && a + b == (a + init) + [c];
    CamelSplitOneMore(a + init, c);
    CamelSplitOneMore(init, c);
    EmptyIsNotSplit();
    if n > 0 {
      CamelSplitOfAppend(a, init);
      assert HumpAt(a + init, |a|) <==> HumpAt(a + b, |a|);
      assert (a + init)[|a + init| - 1] == init[n - 1];
    } else {
      assert a + init == a && init == "";
    }
  }

  lemma {:induction false} CamelSplitFixesHumpless(s: string)
    requires Humpless(s)
    ensures CamelSplit(s) == s
  {
    hide IsUpper, IsLowerOrDigit;
    if s != "" {
      var n := |s| - 1;
      forall i: nat
        ensures !HumpAt(s[..n], i)
      {
        assert !HumpAt(s, i);
      }
      CamelSplitFixesHumpless(s[..n]);
      assert !HumpAt(s, n);
      assert s == s[..n] + [s[n]];
    }
  }

  lemma CamelSplitKeepsLast(s: string)
    requires s != ""
    ensures CamelSplit(s) != "" && CamelSplit(s)[|CamelSplit(s)| - 1] == s[|s| - 1]
  {
  }

  lemma {:induction false} SeparateOfAppend(a: string, b: string)
    requires b != "" && (a == "" || IsAlnum(a[|a| - 1]) || IsAlnum(b[0]))
    ensures Separate(a + b) == Separate(a) + Separate(b)
  {
    hide IsAlnum, Separate;
    var n := |b| - 1;
    var init, c := b[..n], b[n];
    assert b == init + [c] && a + b == (a + init) + [c];
    SeparateOneMore(a + init, c);
    SeparateOneMore(init, c);
    if n > 0 {
      SeparateOfAppend(a, init);
      assert (a + init)[|a + init| - 1] == init[n - 1];
    } else {
      assert a + init == a && init == "";
      NothingIsSeparated();
    }
  }

  lemma NothingIsSeparated()
    ensures Separate("") == ""
  {
  }

  lemma {:induction false} SeparateOfGap(gap: string)
    requires Gap(gap)
    ensures Separate(gap) == if gap == "" then "" else "_"
  {
    hide IsAlnum;
    if gap != "" {
      SeparateOfGap(gap[..|gap| - 1]);
    }
  }

  lemma GapsAndWordsAreHumpless(s: string)
    requires Gap(s) || Word(s)
    ensures Humpless(s)
  {
  }

  lemma WordsAreSeparated(word: string)
    requires Word(word)
    ensures Separate(word) == word
  {
    UnderscoreIsNoWord();
    SeparateFixesSeparated(word);
  }

  lemma UnderscoreIsNoWord()
    ensures !IsAlnum('_')
  {
  }

  // ---------- one more word, and the end ----------

  /** Another word may follow what stands before. */
  predicate MayFollow(before: string, part: Part) {
    && Gap(part.gap) && Word(part.word)
    && (before == "" || IsAlnum(before[|before| - 1]))
    && (before != "" && part.gap == "" ==> IsUpper(part.word[0]) && IsLowerOrDigit(before[|before| - 1]))
  }

  /** The gap as the first pass leaves it. */
  function SplitGap(before: string, part: Part): string {
    if before != "" && part.gap == "" then "_" else part.gap
  }

  lemma SplitGapIsGap(before: string, part: Part)
    requires MayFollow(before, part)
    ensures Gap(SplitGap(before, part))
    ensures SplitGap(before, part) == "" <==> before == "" && part.gap == ""
    ensures before != "" ==> SplitGap(before, part) != ""
  {
  }

  /** Both passes on a string that ends on a word, a gap and another word. */
  lemma OneMoreWord(before: string, part: Part)
    requires MayFollow(before, part)
    ensures Separate(CamelSplit(before + part.gap + part.word))
            == Separate(CamelSplit(before)) + (if before == "" && part.gap == "" then "" else "_") + part.word
  {
    hide CamelSplit, Separate, SplitGap;
    CamelSplitOfWord(before, part);
    SplitGapIsGap(before, part);
    if before != "" {
      CamelSplitKeepsLast(before);
    } else {
      EmptyIsNotSplit();
    }
    WordStartsAlnum(part.word);
    SeparateOfPieces(CamelSplit(before), SplitGap(before, part), part.word);
  }

  lemma SeparateOfPieces(before: string, gap: string, word: string)
    requires Gap(gap) && Word(word) && (before == "" || IsAlnum(before[|before| - 1]))
    ensures Separate(before + gap + word) == Separate(before) + (if gap == "" then "" else "_") + word
  {
    hide IsAlnum, Separate, Humpless;
    WordsAreSeparated(word);
    SeparateOfGap(gap);
    WordStartsAlnum(word);
    SeparateOfAppend(before + gap, word);
    if gap == "" {
      assert before + gap == before;
    } else {
      SeparateOfAppend(before, gap);
    }
  }

  lemma WordStartsAlnum(word: string)
    requires Word(word)
    ensures word != "" && IsAlnum(word[0]) && IsAlnum(word[|word| - 1])
  {
  }

  lemma CamelSplitOfWord(before: string, part: Part)
    requires MayFollow(before, part)
    ensures CamelSplit(before + part.gap + part.word) == CamelSplit(before) + SplitGap(before, part) + part.word
  {
    hide CamelSplit;
    GapsAndWordsAreHumpless(part.word);
    CamelSplitFixesHumpless(part.word);
    CamelSplitOfAppend(before + part.gap, part.word);
    HumpBeforeWord(before, part);
    CamelSplitOfGap(before, part.gap);
    if part.gap == "" {
      assert before + part.gap == before;
    }
  }

  lemma HumpBeforeWord(before: string, part: Part)
    requires MayFollow(before, part)
    ensures HumpAt(before + part.gap + part.word, |before + part.gap|) <==> before != "" && part.gap == ""
  {
    var s := before + part.gap;
    assert (s + part.word)[|s|] == part.word[0];
    if s != "" {
      assert (s + part.word)[|s| - 1] == s[|s| - 1];
    }
    if part.gap == "" {
      assert s == before;
    } else {
      assert s[|s| - 1] == part.gap[|part.gap| - 1];
    }
  }

  lemma CamelSplitOfGap(before: string, gap: string)
    requires Gap(gap)
    ensures CamelSplit(before + gap) == CamelSplit(before) + gap
  {
    hide CamelSplit;
    if gap == "" {
      assert before + gap == before;
    } else {
      GapsAndWordsAreHumpless(gap);
      CamelSplitFixesHumpless(gap);
      CamelSplitOfAppend(before, gap);
      NoHumpBeforeGap(before, gap);
    }
  }

  lemma NoHumpBeforeGap(before: string, gap: string)
    requires Gap(gap) && gap != ""
    ensures !HumpAt(before + gap, |before|)
  {
    assert (before + gap)[|before|] == gap[0];
  }

  function Lead(parts: seq<Part>): string {
    if parts == [] || parts[0].gap == "" then "" else "_"
  }

  /** How a spelling ends, and what both passes leave of it. */
  predicate SplitUp(parts: seq<Part>) {
    && (Written(parts) == "" <==> parts == [])
    && (parts != [] ==> IsAlnum(Written(parts)[|Written(parts)| - 1]))
    && (parts != [] && parts[|parts| - 1].word != "" ==>
        Written(parts)[|Written(parts)| - 1] == parts[|parts| - 1].word[|parts[|parts| - 1].word| - 1])
    && Separate(CamelSplit(Written(parts))) == Lead(parts) + JoinedWords(parts)
  }

  lemma {:induction false} WrittenIsSplit(parts: seq<Part>)
    requires Spelt(parts)
    ensures SplitUp(parts)
  {
    hide SplitUp, IsAlnum, IsUpper, IsLowerOrDigit, Humpless;
    if parts == [] {
      NothingIsSplitUp();
    } else {
      var init, last := parts[..|parts| - 1], parts[|parts| - 1];
      assert parts == init + [last];
      WrittenIsSplit(init);
      SplitUpOneMore(init, last);
    }
  }

  lemma NothingIsSplitUp()
    ensures SplitUp([])
  {
    NoParts();
    NothingIsSplit();
  }

  lemma SplitUpOneMore(parts: seq<Part>, part: Part)
    requires Spelt(parts + [part]) && SplitUp(parts)
    ensures SplitUp(parts + [part])
  {
    hide IsAlnum, IsUpper, IsLowerOrDigit, CamelSplit, Separate, Written, JoinedWords, Humpless, Gap, Lead;
    PartMayFollow(parts, part);
    hide MayFollow;
    WordStartsAlnum(part.word);
    WrittenEnds(parts, part);
    SplitOneMore(parts, part);
  }

  lemma PartMayFollow(parts: seq<Part>, part: Part)
    requires Spelt(parts + [part]) && SplitUp(parts)
    ensures MayFollow(Written(parts), part) && Word(part.word)
  {
    hide IsAlnum, IsUpper, IsLowerOrDigit, Humpless, Written, Gap, CamelSplit, Separate, JoinedWords, Lead;
    var all := parts + [part];
    assert all[|parts|] == part;
    if parts != [] {
      assert all[|parts| - 1] == parts[|parts| - 1];
    }
  }

  lemma WrittenEnds(parts: seq<Part>, part: Part)
    requires part.word != ""
    ensures var w := Written(parts + [part]); w != "" && w[|w| - 1] == part.word[|part.word| - 1]
  {
    hide Written;
    WrittenOneMore(parts, part);
    LastOfAppend(Written(parts) + part.gap, part.word);
  }

  lemma SplitOneMore(parts: seq<Part>, part: Part)
    requires MayFollow(Written(parts), part) && (Written(parts) == "" <==> parts == [])
    requires Separate(CamelSplit(Written(parts))) == Lead(parts) + JoinedWords(parts)
    ensures Separate(CamelSplit(Written(parts + [part]))) == Lead(parts + [part]) + JoinedWords(parts + [part])
  {
    hide MayFollow, CamelSplit, Separate, Written, JoinedWords, Lead;
    WrittenOneMore(parts, part);
    OneMoreWord(Written(parts), part);
    JoinsOneMore(parts, part);
  }

  lemma JoinsOneMore(parts: seq<Part>, part: Part)
    ensures Lead(parts + [part]) + JoinedWords(parts + [part])
            == Lead(parts) + JoinedWords(parts) + (if parts == [] && part.gap == "" then "" else "_") + part.word
  {
    hide JoinedWords;
    WrittenOneMore(parts, part);
    NoParts();
    var lead, words := Lead(parts), JoinedWords(parts);
    assert lead + (words + "_" + part.word) == lead + words + "_" + part.word;
  }

  lemma LastOfAppend(a: string, b: string)
    requires b != ""
    ensures a + b != "" && (a + b)[|a + b| - 1] == b[|b| - 1]
  {
  }

  lemma NothingIsSplit()
    ensures Separate(CamelSplit("")) == ""
  {
  }

  lemma {:induction false} JoinedWordsAreBare(parts: seq<Part>)
    requires Spelt(parts) && parts != []
    ensures var j := JoinedWords(parts); j != "" && IsAlnum(j[0]) && IsAlnum(j[|j| - 1])
  {
    hide IsAlnum, IsUpper, IsLowerOrDigit, Humpless, Gap;
    WordStartsAlnum(parts[|parts| - 1].word);
    if |parts| > 1 {
      JoinedWordsAreBare(parts[..|parts| - 1]);
    }
  }

  lemma LeadingIsStripped(s: string)
    requires s != "" && s[0] != '_'
    ensures StripLeading("_" + s) == s && StripLeading(s) == s
  {
    assert ("_" + s)[1..] == s;
  }

  lemma TrailingIsStripped(s: string)
    requires s != "" && s[|s| - 1] != '_'
    ensures StripTrailing(s + "_") == s && StripTrailing(s) == s
  {
    assert (s + "_")[..|s|] == s;
  }

  lemma UnderscoresAreStripped(lead: string, words: string, trail: string)
    requires lead == "" || lead == "_"
    requires trail == "" || trail == "_"
    requires words != "" && words[0] != '_' && words[|words| - 1] != '_'
    ensures StripTrailing(StripLeading(lead + words + trail)) == words
  {
    hide StripLeading, StripTrailing;
    var rest := words + trail;
    assert lead + words + trail == lead + rest && rest[0] == words[0];
    LeadingIsStripped(rest);
    TrailingIsStripped(words);
    assert "" + rest == rest && words + "" == words;
  }

  // ---------- what the normaliser reads ----------

  /** Whatever the gaps and the letter case of the words: the key denoted is the words
      in lower case, joined by single underscores. */
  lemma SpellingIsRead(parts: seq<Part>, tail: string)
    requires Spelt(parts) && Gap(tail)
    ensures NormalizeKey(Written(parts) + tail) == Lower(JoinedWords(parts))
  {
    hide IsAlnum, CamelSplit, Separate, Lower, Spelt, StripLeading, StripTrailing;
    CamelSplitOfGap(Written(parts), tail);
    SeparateOfGap(tail);
    WrittenIsSplit(parts);
    if parts == [] {
      EmptyIsNotSplit();
      NoParts();
      assert "" + tail == tail;
      StripUnderscore();
    } else {
      CamelSplitKeepsLast(Written(parts));
      SeparateOfTail(CamelSplit(Written(parts)), tail);
      JoinedWordsAreBare(parts);
      UnderscoreIsNoWord();
      UnderscoresAreStripped(Lead(parts), JoinedWords(parts), if tail == "" then "" else "_");
    }
  }

  lemma SeparateOfTail(s: string, tail: string)
    requires s != "" && IsAlnum(s[|s| - 1]) && Gap(tail)
    ensures Separate(s + tail) == Separate(s) + if tail == "" then "" else "_"
  {
    hide IsAlnum, Separate;
    SeparateOfGap(tail);
    if tail == "" {
      assert s + tail == s;
    } else {
      SeparateOfAppend(s, tail);
    }
  }

  lemma EmptyIsNotSplit()
    ensures CamelSplit("") == ""
  {
  }

  lemma StripUnderscore()
    ensures StripTrailing(StripLeading("_")) == "" && StripTrailing(StripLeading("")) == ""
  {
    assert "_"[1..] == "";
  }

  /** And every string is such a spelling, so this is what the normaliser does. */
  lemma {:induction false} EveryKeyIsSpelt(key: string) returns (parts: seq<Part>, tail: string)
    ensures Spelt(parts) && Gap(tail) && key == Written(parts) + tail
  {
    hide IsAlnum, Spelt, Written, StartsWord;
    NoParts();
    NothingIsSpelt();
    if key == "" {
      parts, tail := [], "";
    } else {
      var n := |key| - 1;
      var c := key[n];
      assert key == key[..n] + [c];
      parts, tail := EveryKeyIsSpelt(key[..n]);
      if !IsAlnum(c) {
        assert key == Written(parts) + (tail + [c]);
        tail := tail + [c];
      } else if parts == [] || tail != "" || StartsWord(parts[|parts| - 1].word, c) {
        NewWord(parts, tail, c);
        parts, tail := parts + [Part(tail, [c])], "";
        assert key == Written(parts) + tail;
      } else {
        parts := LongerWord(parts, c);
        assert key == Written(parts) + tail;
      }
    }
  }

  lemma NothingIsSpelt()
    ensures Spelt([]) && Gap("")
  {
  }

  predicate StartsWord(word: string, c: char) {
    word != "" && IsUpper(c) && IsLowerOrDigit(word[|word| - 1])
  }

  lemma WrittenOneMore(parts: seq<Part>, part: Part)
    ensures Written(parts + [part]) == Written(parts) + part.gap + part.word
    ensures JoinedWords(parts + [part]) == (if parts == [] then "" else JoinedWords(parts) + "_") + part.word
  {
    assert (parts + [part])[..|parts|] == parts;
  }

  lemma SpeltOneMore(parts: seq<Part>, part: Part)
    requires Spelt(parts) && Gap(part.gap) && Word(part.word)
    requires parts == [] || part.gap != "" || StartsWord(parts[|parts| - 1].word, part.word[0])
    ensures Spelt(parts + [part])
  {
    hide IsAlnum, IsUpper, IsLowerOrDigit, Humpless;
  }

  lemma NewWord(parts: seq<Part>, gap: string, c: char)
    requires Spelt(parts) && Gap(gap) && IsAlnum(c)
    requires parts == [] || gap != "" || StartsWord(parts[|parts| - 1].word, c)
    ensures Spelt(parts + [Part(gap, [c])])
    ensures Written(parts + [Part(gap, [c])]) == Written(parts) + gap + [c]
  {
    hide Spelt, Written, StartsWord, IsAlnum;
    LetterIsWord(c);
    SpeltOneMore(parts, Part(gap, [c]));
    WrittenOneMore(parts, Part(gap, [c]));
  }

  lemma LetterIsWord(c: char)
    requires IsAlnum(c)
    ensures Word([c])
  {
  }

  lemma LongerWord(parts: seq<Part>, c: char) returns (longer: seq<Part>)
    requires Spelt(parts) && parts != [] && IsAlnum(c) && !StartsWord(parts[|parts| - 1].word, c)
    ensures Spelt(longer) && Written(longer) == Written(parts) + [c]
  {
    var n := |parts| - 1;
    var last := parts[n];
    longer := parts[..n] + [Part(last.gap, last.word + [c])];
    assert longer[..n] == parts[..n];
    assert Word(last.word + [c]) by {
      WordGrows(last.word, c);
    }
    assert last.gap + (last.word + [c]) == last.gap + last.word + [c];
  }

  lemma WordGrows(word: string, c: char)
    requires Word(word) && IsAlnum(c) && !StartsWord(word, c)
    ensures Word(word + [c])
  {
    forall i: nat
      ensures !HumpAt(word + [c], i)
    {
      assert !HumpAt(word, i);
    }
  }

  // ---------- the usual spellings ----------

  predicate PlainWord(word: string) {
    word != "" && forall i :: 0 <= i < |word| ==> IsLowerOrDigit(word[i])
  }

  function Capital(c: char): char {
    if 'a' <= c <= 'z' then c - 'a' + 'A' else c
  }

  function Capitalized(word: string): string
    requires word != ""
  {
    [Capital(word[0])] + word[1..]
  }

  function AllCapitals(word: string): string {
    seq(|word|, i requires 0 <= i < |word| => Capital(word[i]))
  }

  lemma PlainIsWord(word: string)
    requires PlainWord(word)
    ensures Word(word) && Lower(word) == word
  {
  }

  lemma CapitalizedIsWord(word: string)
    requires PlainWord(word)
    ensures Word(Capitalized(word)) && Lower(Capitalized(word)) == word
    ensures 'a' <= word[0] <= 'z' ==> IsUpper(Capitalized(word)[0])
  {
    CapitalIsUpper(word[0]);
  }

  lemma CapitalOf(c: char)
    requires IsLowerOrDigit(c)
    ensures IsAlnum(Capital(c)) && LowerChar(Capital(c)) == c
    ensures IsUpper(Capital(c)) <==> !('0' <= c <= '9')
    ensures IsLowerOrDigit(Capital(c)) <==> '0' <= c <= '9'
  {
  }

  /** A plain word, its capitalised form and its form in capitals all denote it; the
      last one is a single word if and only if no letter follows a digit. */
  lemma CasesOfAWord(word: string)
    requires PlainWord(word)
    ensures Word(word) && Word(Capitalized(word))
    ensures Word(AllCapitals(word)) <==> forall i :: 0 < i < |word| && '0' <= word[i - 1] <= '9' ==> '0' <= word[i] <= '9'
    ensures Lower(word) == word && Lower(Capitalized(word)) == word && Lower(AllCapitals(word)) == word
  {
    PlainIsWord(word);
    CapitalizedIsWord(word);
    hide IsAlnum, IsUpper, IsLowerOrDigit, Capital, Capitalized, Word;
    AllCapitalsIsWordIff(word);
  }

  lemma AllCapitalsIsWordIff(word: string)
    requires PlainWord(word)
    ensures Word(AllCapitals(word)) <==> forall i :: 0 < i < |word| && '0' <= word[i - 1] <= '9' ==> '0' <= word[i] <= '9'
    ensures Lower(AllCapitals(word)) == word
  {
    hide IsAlnum, IsUpper, IsLowerOrDigit, Capital;
    var upper := AllCapitals(word);
    forall i | 0 <= i < |word|
      ensures IsAlnum(upper[i]) && LowerChar(upper[i]) == word[i]
      ensures IsUpper(upper[i]) <==> !('0' <= word[i] <= '9')
      ensures IsLowerOrDigit(upper[i]) <==> '0' <= word[i] <= '9'
    {
      CapitalOf(word[i]);
    }
    forall i | 0 < i < |word|
      ensures HumpAt(upper, i) <==> '0' <= word[i - 1] <= '9' && !('0' <= word[i] <= '9')
    {
    }
  }

  function SnakeCase(words: seq<string>): string {
    if words == [] then ""
    else if |words| == 1 then words[0]
    else SnakeCase(words[..|words| - 1]) + "_" + words[|words| - 1]
  }

  /** The first word as it is, the later ones capitalised. */
  function CamelCase(words: seq<string>): string
    requires forall i :: 0 <= i < |words| ==> words[i] != ""
  {
    if words == [] then ""
    else if |words| == 1 then words[0]
    else CamelCase(words[..|words| - 1]) + Capitalized(words[|words| - 1])
  }

  /** Plain words, of which the later ones start with a letter. */
  predicate Phrase(words: seq<string>) {
    && (forall i :: 0 <= i < |words| ==> PlainWord(words[i]))
    && (forall i :: 0 < i < |words| ==> 'a' <= words[i][0] <= 'z')
  }

  /** No word between the first and the last is a single letter. */
  predicate InnerWordsAreLong(words: seq<string>) {
    forall i :: 0 < i < |words| - 1 ==> |words[i]| > 1
  }

  function CamelParts(words: seq<string>): (parts: seq<Part>)
    requires forall i :: 0 <= i < |words| ==> words[i] != ""
    ensures |parts| == |words|
    ensures forall i :: 0 <= i < |parts| ==> parts[i] == Part("", if i == 0 then words[0] else Capitalized(words[i]))
  {
    seq(|words|, i requires 0 <= i < |words| => Part("", if i == 0 then words[0] else Capitalized(words[i])))
  }

  lemma CamelCaseOneMore(words: seq<string>, word: string)
    requires word != "" && forall i :: 0 <= i < |words| ==> words[i] != ""
    ensures CamelCase(words + [word]) == if words == [] then word else CamelCase(words) + Capitalized(word)
    ensures SnakeCase(words + [word]) == if words == [] then word else SnakeCase(words) + "_" + word
  {
    assert (words + [word])[..|words|] == words;
  }

  lemma {:induction false} CamelPartsAreCamelCase(words: seq<string>)
    requires Phrase(words)
    ensures Written(CamelParts(words)) == CamelCase(words)
    ensures Lower(JoinedWords(CamelParts(words))) == SnakeCase(words)
  {
    if words == [] {
      NoParts();
    } else {
      var n := |words| - 1;
      assert words == words[..n] + [words[n]];
      CamelPartsAreCamelCase(words[..n]);
      CamelPartsOneMore(words[..n], words[n]);
    }
  }

  lemma CamelPartsOneMore(words: seq<string>, word: string)
    requires Phrase(words) && PlainWord(word)
    requires Written(CamelParts(words)) == CamelCase(words)
    requires Lower(JoinedWords(CamelParts(words))) == SnakeCase(words)
    ensures Written(CamelParts(words + [word])) == CamelCase(words + [word])
    ensures Lower(JoinedWords(CamelParts(words + [word]))) == SnakeCase(words + [word])
  {
    hide IsLowerOrDigit, Written, JoinedWords, CamelCase, SnakeCase, Capitalized, Lower, Word;
    CamelCaseOneMore(words, word);
    PlainIsWord(word);
    CapitalizedIsWord(word);
    var written := if words == [] then word else Capitalized(word);
    assert CamelParts(words + [word]) == CamelParts(words) + [Part("", written)];
    UngappedOneMore(CamelParts(words), written);
  }

  lemma UngappedOneMore(parts: seq<Part>, word: string)
    ensures Written(parts + [Part("", word)]) == (if parts == [] then word else Written(parts) + word)
    ensures Lower(JoinedWords(parts + [Part("", word)]))
            == if parts == [] then Lower(word) else Lower(JoinedWords(parts)) + "_" + Lower(word)
  {
    hide Written, JoinedWords, Lower;
    WrittenOneMore(parts, Part("", word));
    assert Written(parts) + "" == Written(parts);
    if parts == [] {
      NoParts();
      assert "" + word == word;
    } else {
      LowerOfAppend(JoinedWords(parts) + "_", word);
      LowerOfAppend(JoinedWords(parts), "_");
    }
  }

  lemma NoParts()
    ensures Written([]) == "" && JoinedWords([]) == "" && Lower("") == ""
  {
  }

  lemma LowerOfAppend(a: string, b: string)
    ensures Lower(a + b) == Lower(a) + Lower(b)
    ensures Lower("_") == "_"
  {
  }

  lemma CamelPartsAreSpelt(words: seq<string>)
    requires Phrase(words) && InnerWordsAreLong(words)
    ensures Spelt(CamelParts(words))
  {
    var parts := CamelParts(words);
    forall i | 0 <= i < |parts|
      ensures Gap(parts[i].gap) && Word(parts[i].word)
      ensures i > 0 ==> IsUpper(parts[i].word[0])
      ensures i < |parts| - 1 ==> IsLowerOrDigit(parts[i].word[|parts[i].word| - 1])
    {
      PlainIsWord(words[i]);
      CapitalizedIsWord(words[i]);
    }
  }

  function Letters(words: seq<string>): nat {
    if words == [] then 0 else Letters(words[..|words| - 1]) + |words[|words| - 1]|
  }

  lemma {:induction false} SnakeCaseLength(words: seq<string>)
    requires words != []
    ensures |SnakeCase(words)| == Letters(words) + |words| - 1
  {
    if |words| > 1 {
      SnakeCaseLength(words[..|words| - 1]);
    } else {
      assert words[..0] == [];
    }
  }

  lemma {:induction false} SeparateShortens(s: string)
    ensures |Separate(s)| <= |s|
  {
    if s != "" {
      SeparateShortens(s[..|s| - 1]);
    }
  }

  lemma {:induction false} StripLeadingShortens(s: string)
    ensures |StripLeading(s)| <= |s|
  {
    if s != "" && s[0] == '_' {
      StripLeadingShortens(s[1..]);
    }
  }

  lemma NormalizeShortens(key: string)
    ensures |NormalizeKey(key)| <= |CamelSplit(key)|
  {
    SeparateShortens(CamelSplit(key));
    StripLeadingShortens(Separate(CamelSplit(key)));
  }

  lemma CamelCaseEnd(words: seq<string>)
    requires Phrase(words) && words != []
    ensures CamelCase(words) != ""
    ensures |words| > 1 && |words[|words| - 1]| == 1 ==> IsUpper(CamelCase(words)[|CamelCase(words)| - 1])
  {
    hide IsUpper, IsLowerOrDigit, CamelCase;
    var n := |words| - 1;
    assert words == words[..n] + [words[n]];
    CamelCaseOneMore(words[..n], words[n]);
    CapitalIsUpper(words[n][0]);
  }

  /** Behind a single capital no new word begins. */
  lemma {:induction false} CamelSplitLength(words: seq<string>)
    requires Phrase(words) && words != []
    ensures |CamelSplit(CamelCase(words))| <= Letters(words) + |words| - 1
    ensures !InnerWordsAreLong(words) ==> |CamelSplit(CamelCase(words))| < Letters(words) + |words| - 1
  {
    hide IsUpper, IsLowerOrDigit, CamelSplit, CamelCase, Word, Letters, Capitalized, InnerWordsAreLong;
    var n := |words| - 1;
    var init, word := words[..n], words[n];
    assert words == init + [word];
    CamelCaseOneMore(init, word);
    LettersOneMore(words);
    PlainIsWord(word);
    ShortWordIsInside(words);
    if n == 0 {
      WordsAreNotSplit(word);
    } else {
      CamelSplitLength(init);
      CamelCaseEnd(init);
      CamelSplitOfCapitalized(CamelCase(init), word);
      assert init[n - 1] == words[n - 1];
    }
  }

  lemma WordsAreNotSplit(word: string)
    requires Word(word)
    ensures CamelSplit(word) == word
  {
    CamelSplitFixesHumpless(word);
  }

  lemma LettersOneMore(words: seq<string>)
    requires words != []
    ensures Letters(words) == Letters(words[..|words| - 1]) + |words[|words| - 1]|
    ensures Letters(words[..0]) == 0
  {
  }

  lemma ShortWordIsInside(words: seq<string>)
    requires forall i :: 0 <= i < |words| ==> words[i] != ""
    ensures !InnerWordsAreLong(words) ==>
              |words| > 2 && (|words[|words| - 2]| == 1 || !InnerWordsAreLong(words[..|words| - 1]))
  {
    if !InnerWordsAreLong(words) {
      var i :| 0 < i < |words| - 1 && |words[i]| <= 1;
      assert i < |words| - 2 ==> words[..|words| - 1][i] == words[i];
    }
  }

  lemma CamelSplitOfCapitalized(before: string, word: string)
    requires before != "" && PlainWord(word)
    ensures var split := |CamelSplit(before + Capitalized(word))|;
            && split <= |CamelSplit(before)| + 1 + |word|
            && (IsUpper(before[|before| - 1]) ==> split == |CamelSplit(before)| + |word|)
  {
    hide CamelSplit;
    CapitalizedIsWord(word);
    CamelSplitFixesHumpless(Capitalized(word));
    CamelSplitOfAppend(before, Capitalized(word));
    assert HumpAt(before + Capitalized(word), |before|) ==> IsLowerOrDigit(before[|before| - 1]);
  }

  lemma CapitalIsUpper(c: char)
    ensures 'a' <= c <= 'z' ==> IsUpper(Capital(c))
  {
  }

  /** A camel-cased phrase denotes its words exactly when no inner word is a single
      letter: `apiKey` is `api_key`, but `getAKey` is `get_akey`. */
  lemma CamelCaseIsReadIff(words: seq<string>)
    requires Phrase(words) && words != []
    ensures NormalizeKey(CamelCase(words)) == SnakeCase(words) <==> InnerWordsAreLong(words)
  {
    hide NormalizeKey, CamelSplit, CamelCase, SnakeCase, IsLowerOrDigit, Spelt;
    if InnerWordsAreLong(words) {
      CamelPartsAreSpelt(words);
      CamelPartsAreCamelCase(words);
      SpellingIsRead(CamelParts(words), "");
      assert Written(CamelParts(words)) + "" == Written(CamelParts(words));
    } else {
      CamelSplitLength(words);
      NormalizeShortens(CamelCase(words));
      SnakeCaseLength(words);
    }
  }

  /** Every spelling of a forbidden name is rejected, at any depth outside tuples. */
  lemma ForbiddenSpellingsAreRejected(forbidden: string -> bool, value: Json, path: Path, parts: seq<Part>, tail: string)
    requires Spelt(parts) && Gap(tail) && forbidden(Lower(JoinedWords(parts)))
    requires KeyAt(value, path) == Some(Written(parts) + tail) && !EntersTuple(value, path)
    ensures !Accepts(forbidden, value)
  {
    hide NormalizeKey, Accepts, KeyAt, EntersTuple, Spelt;
    SpellingIsRead(parts, tail);
    if Accepts(forbidden, value) {
      AcceptedHasNoForbiddenKey(forbidden, value, path);
    }
  }
}
