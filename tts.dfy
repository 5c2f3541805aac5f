/**
 * The text chunker in front of speech synthesis: a halacha's text is cut
 * into pieces of at most `maxChars` characters, at sentence ends where it
 * can and between words otherwise, without losing or reordering a word.
 * Synthesis itself, the audio cache and the MP3 concatenation are not part
 * of this model.
 */
module Tts {
  import opened Text

  /** Characters allowed in one synthesis request. */
  const MaxChunkChars: int := 1200

  /** A sentence may end after a period, a colon or a sof pasuq (U+05C3). */
  predicate IsStop(c: char) {
    c == '.' || c == ':' || c == '\U{05C3}'
  }

  /** `(?<=[.:׃])\s+` can start matching at `k`. */
  predicate BreaksAt(s: string, k: nat) {
    1 <= k < |s| && IsStop(s[k - 1]) && IsSpace(s[k])
  }

  /** The first break at or after `k`, or `|s|`. */
  function BreakFrom(s: string, k: nat): (r: nat)
    requires 1 <= k <= |s|
    ensures k <= r <= |s|
    ensures r < |s| ==> BreaksAt(s, r)
    ensures forall j :: k <= j < r ==> !BreaksAt(s, j)
    decreases |s| - k
  {
    if k == |s| then |s|
    else if BreaksAt(s, k) then k
    else BreakFrom(s, k + 1)
  }

  /** `re.split(r"(?<=[.:׃])\s+", s)`: each match removes one whole
      whitespace run that follows a stop character. */
  function SplitSentences(s: string): (sentences: seq<string>)
    ensures sentences != []
    decreases |s|
  {
    if s == [] then [s]
    else
      var k := BreakFrom(s, 1);
      if k == |s| then [s] else [s[..k]] + SplitSentences(LStrip(s[k..]))
  }

  /** The words of each piece, one after another. */
  function WordsIn(pieces: seq<string>): seq<string>
    decreases |pieces|
  {
    if pieces == [] then [] else Words(pieces[0]) + WordsIn(pieces[1..])
  }

  lemma {:induction false} WordsInAppend(a: seq<string>, b: seq<string>)
    ensures WordsIn(a + b) == WordsIn(a) + WordsIn(b)
    decreases |a|
  {
    if a == [] {
      assert a + b == b;
    } else {
      assert (a + b)[1..] == a[1..] + b;
      WordsInAppend(a[1..], b);
    }
  }

  lemma WordsInSingle(s: string)
    ensures WordsIn([s]) == Words(s)
  {
    assert [s][1..] == [];
  }

  /** The words of a growing prefix of pieces. */
  lemma WordsInPrefix(pieces: seq<string>, j: nat)
    requires j < |pieces|
    ensures WordsIn(pieces[..j + 1]) == WordsIn(pieces[..j]) + Words(pieces[j])
  {
    assert pieces[..j + 1] == pieces[..j] + [pieces[j]];
    WordsInAppend(pieces[..j], [pieces[j]]);
    WordsInSingle(pieces[j]);
  }

  /** Splitting into sentences keeps every word, in order. */
  lemma {:induction false} SentencesKeepWords(s: string)
    ensures WordsIn(SplitSentences(s)) == Words(s)
    decreases |s|
  {
    if s == [] {
      WordsInSingle(s);
    } else {
      var k := BreakFrom(s, 1);
      if k == |s| {
        WordsInSingle(s);
      } else {
        var rest := LStrip(s[k..]);
        SentencesKeepWords(rest);
        assert SplitSentences(s) == [s[..k]] + SplitSentences(rest);
        WordsInAppend([s[..k]], SplitSentences(rest));
        WordsInSingle(s[..k]);
        assert s == s[..k] + s[k..];
        WordsAppend(s[..k], s[k..]);
        WordsStrip(s[k..]);
      }
    }
  }

  /** `f"{current} {next}".strip() if current else next`. */
  function Candidate(current: string, next: string): string {
    if current != "" then Strip(current + " " + next) else next
  }

  /** A candidate holds the words of both parts, so it is empty only when both are blank. */
  lemma CandidateWords(current: string, next: string)
    ensures Words(Candidate(current, next)) == Words(current) + Words(next)
    ensures Words(Candidate(current, next)) != [] ==> Candidate(current, next) != ""
  {
    if current != "" {
      WordsStrip(current + " " + next);
      WordsSpaceJoin(current, next);
    } else {
      assert Words(current) == [];
    }
  }

  /** A chunk is non-empty, and longer than the limit only when it is one
      unbreakable word. */
  predicate GoodChunk(c: string, maxChars: int) {
    c != "" && (|c| <= maxChars || NoSpace(c))
  }

  /** The words held so far: the finished chunks, then the current one. */
  function Tally(chunks: seq<string>, current: string): seq<string> {
    WordsIn(chunks) + Words(current)
  }

  /** Joining `next` to the current chunk keeps every word. */
  lemma JoinStep(chunks: seq<string>, current: string, next: string)
    ensures Tally(chunks, Candidate(current, next)) == Tally(chunks, current) + Words(next)
  {
    CandidateWords(current, next);
  }

  /** Emitting the current chunk and starting over with `next` keeps every word. */
  lemma RestartStep(chunks: seq<string>, current: string, next: string)
    ensures current != "" ==> Tally(chunks + [current], next) == Tally(chunks, current) + Words(next)
    ensures current == "" ==> Tally(chunks, next) == Tally(chunks, current) + Words(next)
  {
    Emit(chunks, current);
    if current == "" {
      assert Words(current) == [];
    }
  }

  /** Emitting the last current chunk keeps every word. */
  lemma Emit(chunks: seq<string>, current: string)
    ensures WordsIn(chunks + [current]) == Tally(chunks, current)
  {
    WordsInAppend(chunks, [current]);
    WordsInSingle(current);
  }

  /** One step of either packing loop: `next` joins the current chunk when
      the joined candidate fits; otherwise the current chunk, if any, is
      emitted and the caller starts a new one. */
  method Advance(chunks0: seq<string>, current0: string, next: string, maxChars: int)
    returns (chunks: seq<string>, current: string, joined: bool)
    requires forall c :: c in chunks0 ==> GoodChunk(c, maxChars)
    requires current0 == "" || GoodChunk(current0, maxChars)
    ensures joined <==> |Candidate(current0, next)| <= maxChars
    ensures forall c :: c in chunks ==> GoodChunk(c, maxChars)
    ensures joined ==> chunks == chunks0 && current == Candidate(current0, next)
    ensures !joined ==> chunks == (if current0 != "" then chunks0 + [current0] else chunks0) && current == ""
    ensures joined ==> Tally(chunks, current) == Tally(chunks0, current0) + Words(next)
    ensures !joined ==> Tally(chunks, next) == Tally(chunks0, current0) + Words(next)
  {
    var candidate := Candidate(current0, next);
    JoinStep(chunks0, current0, next);
    RestartStep(chunks0, current0, next);
    if |candidate| <= maxChars {
      chunks, current, joined := chunks0, candidate, true;
    } else {
      chunks := if current0 != "" then chunks0 + [current0] else chunks0;
      current, joined := "", false;
    }
  }

  /** One pass of the word loop of `chunk_text`: the word joins the current
      chunk when the candidate fits, else it starts a chunk of its own. */
  method PlaceWord(chunks0: seq<string>, current0: string, word: string, maxChars: int)
    returns (chunks: seq<string>, current: string)
    requires forall c :: c in chunks0 ==> GoodChunk(c, maxChars)
    requires current0 == "" || GoodChunk(current0, maxChars)
    requires GoodChunk(word, maxChars)
    ensures forall c :: c in chunks ==> GoodChunk(c, maxChars)
    ensures current == "" || GoodChunk(current, maxChars)
    ensures Tally(chunks, current) == Tally(chunks0, current0) + Words(word)
  {
    var joined;
    chunks, current, joined := Advance(chunks0, current0, word, maxChars);
    if !joined {
      current := word;
    }
  }

  /** The inner loop of `chunk_text`: a sentence too long for one chunk is
      packed word by word, starting from an empty current chunk. */
  method PackWords(words: seq<string>, maxChars: int) returns (chunks: seq<string>, current: string)
    requires forall i :: 0 <= i < |words| ==> GoodChunk(words[i], maxChars)
    ensures forall c :: c in chunks ==> GoodChunk(c, maxChars)
    ensures current == "" || GoodChunk(current, maxChars)
    ensures Tally(chunks, current) == WordsIn(words)
  {
    chunks := [];
    current := "";
    assert Words(current) == [] && WordsIn(words[..0]) == [];
    for j := 0 to |words|
      invariant forall c :: c in chunks ==> GoodChunk(c, maxChars)
      invariant current == "" || GoodChunk(current, maxChars)
      invariant Tally(chunks, current) == WordsIn(words[..j])
    {
      var word := words[j];
      WordsInPrefix(words, j);
      chunks, current := PlaceWord(chunks, current, word, maxChars);
    }
    assert words[..|words|] == words;
  }

  /** The words of a text can each be a chunk of its own. */
  lemma WordsAreChunks(s: string, maxChars: int)
    ensures forall w :: w in Words(s) ==> GoodChunk(w, maxChars)
  {
    WordsShape(s);
  }

  /** Each word of a text is its own only word. */
  lemma {:induction false} WordsInWords(s: string)
    ensures WordsIn(Words(s)) == Words(s)
    decreases |s|
  {
    if s != [] {
      if IsSpace(s[0]) {
        WordsInWords(s[1..]);
      } else {
        var k := WordEnd(s);
        assert k >= 1;
        WordsOfWord(s[..k]);
        WordsInWords(s[k..]);
        WordsInAppend([s[..k]], Words(s[k..]));
        WordsInSingle(s[..k]);
      }
    }
  }


  /** Chunks packed on their own and appended keep their words after the earlier ones. */
  lemma AppendRun(chunks: seq<string>, more: seq<string>, current: string)
    ensures Tally(chunks + more, current) == WordsIn(chunks) + Tally(more, current)
  {
    WordsInAppend(chunks, more);
  }

  /** One pass of the sentence loop of `chunk_text`: the sentence joins the
      current chunk when the candidate fits; otherwise a sentence too long
      for any chunk is packed word by word, and a shorter one starts a chunk
      of its own. */
  method PlaceSentence(chunks0: seq<string>, current0: string, sentence: string, maxChars: int)
    returns (chunks: seq<string>, current: string)
    requires forall c :: c in chunks0 ==> GoodChunk(c, maxChars)
    requires current0 == "" || GoodChunk(current0, maxChars)
    ensures forall c :: c in chunks ==> GoodChunk(c, maxChars)
    ensures current == "" || GoodChunk(current, maxChars)
    ensures Tally(chunks, current) == Tally(chunks0, current0) + Words(sentence)
  {
    var joined;
    chunks, current, joined := Advance(chunks0, current0, sentence, maxChars);
    if !joined {
      if |sentence| > maxChars {
        WordsAreChunks(sentence, maxChars);
        WordsInWords(sentence);
        var more;
        more, current := PackWords(Words(sentence), maxChars);
        AppendRun(chunks, more, current);
        chunks := chunks + more;
      } else {
        current := sentence;
      }
    }
  }

  /** The sentence loop of `chunk_text`, and the last chunk after it. */
  method PackSentences(sentences: seq<string>, maxChars: int) returns (chunks: seq<string>)
    ensures forall c :: c in chunks ==> GoodChunk(c, maxChars)
    ensures WordsIn(chunks) == WordsIn(sentences)
  {
    chunks := [];
    var current := "";
    assert Words(current) == [];
    for i := 0 to |sentences|
      invariant forall c :: c in chunks ==> GoodChunk(c, maxChars)
      invariant current == "" || GoodChunk(current, maxChars)
      invariant Tally(chunks, current) == WordsIn(sentences[..i])
    {
      WordsInPrefix(sentences, i);
      chunks, current := PlaceSentence(chunks, current, sentences[i], maxChars);
    }
    assert sentences[..|sentences|] == sentences;
    if current != "" {
      Emit(chunks, current);
      chunks := chunks + [current];
    } else {
      assert Words(current) == [];
    }
  }


  /** `chunk_text`: blank text gives no chunk, text that fits gives itself
      stripped, and anything longer is split into sentences and packed.
      Every word of the text reaches the chunks, in order, and every chunk
      fits unless it is one word too long to break. */
  method ChunkText(text: string, maxChars: int) returns (chunks: seq<string>)
    ensures chunks == [] <==> AllSpace(text)
    ensures !AllSpace(text) && |Strip(text)| <= maxChars ==> chunks == [Strip(text)]
    ensures forall c :: c in chunks ==> GoodChunk(c, maxChars)
    ensures WordsIn(chunks) == Words(text)
  {
    var stripped := Strip(text);
    StripAllSpace(text);
    WordsStrip(text);
    if stripped == "" {
      WordsAllSpace(text);
      return [];
    }
    if |stripped| <= maxChars {
      WordsInSingle(stripped);
      return [stripped];
    }
    var sentences := SplitSentences(stripped);
    SentencesKeepWords(stripped);
    chunks := PackSentences(sentences, maxChars);
    WordsNonEmpty(stripped);
  }
}
