/** The splitting loop of `generateSpeechFromLongText`: a story is cut into
    chunks of at most 8000 characters, each cut placed just after the last
    `.` or newline of its 8000-character window, or at 8000 when the window
    has neither. */
module SpeechChunker {

  const ChunkSize: nat := 8000

  /** `s.lastIndexOf(c)`: the last position holding c, or -1. */
  function LastIndexOf(s: string, c: char): (r: int)
    ensures -1 <= r < |s|
    ensures r >= 0 ==> s[r] == c
    ensures forall j :: r < j < |s| ==> s[j] != c
  {
    if s == [] then -1
    else if s[|s| - 1] == c then |s| - 1
    else LastIndexOf(s[..|s| - 1], c)
  }

  predicate IsTerminator(c: char)
  {
    c == '.' || c == '\n'
  }

  /** Where a full window is cut: one past `max(lastIndexOf('.'), lastIndexOf('\n'))`,
      or the whole window when it has neither character. */
  function SplitIndex(window: string): (k: nat)
    requires |window| == ChunkSize
    ensures 1 <= k <= |window|
    ensures (exists j :: 0 <= j < |window| && IsTerminator(window[j])) ==>
              IsTerminator(window[k - 1]) && forall j :: k <= j < |window| ==> !IsTerminator(window[j])
    ensures (forall j :: 0 <= j < |window| ==> !IsTerminator(window[j])) ==> k == ChunkSize
  {
    var lastPeriod := LastIndexOf(window, '.');
    var lastNewline := LastIndexOf(window, '\n');
    var splitIndex := if lastPeriod < lastNewline then lastNewline else lastPeriod;
    if splitIndex == -1 then ChunkSize else splitIndex + 1
  }

  /** The chunk list the loop produces. */
  function Chunks(text: string): (chunks: seq<string>)
    decreases |text|
  {
    if |text| == 0 then []
    else if |text| <= ChunkSize then [text]
    else
      var k := SplitIndex(text[..ChunkSize]);
      [text[..k]] + Chunks(text[k..])
  }

  /** The chunks written one after another. */
  function Join(chunks: seq<string>): (s: string)
  {
    if chunks == [] then [] else chunks[0] + Join(chunks[1..])
  }

  lemma {:induction false} JoinAppend(chunks: seq<string>, last: string)
    ensures Join(chunks + [last]) == Join(chunks) + last
  {
    if chunks == [] {
      assert chunks + [last] == [last];
    } else {
      assert (chunks + [last])[1..] == chunks[1..] + [last];
      JoinAppend(chunks[1..], last);
    }
  }

  lemma {:induction false} ChunksOfRest(text: string)
    requires |text| > ChunkSize
    ensures var k := SplitIndex(text[..ChunkSize]); Chunks(text) == [text[..k]] + Chunks(text[k..])
  {
  }

  /** Concatenating the chunks in order gives back exactly the text: no
      character is dropped, duplicated or moved. */
  lemma {:induction false} ChunksRoundTrip(text: string)
    ensures Join(Chunks(text)) == text
    decreases |text|
  {
    if |text| == 0 {
    } else if |text| <= ChunkSize {
      assert Chunks(text) == [text];
      assert Join([text]) == text + Join([]);
    } else {
      var k := SplitIndex(text[..ChunkSize]);
      ChunksRoundTrip(text[k..]);
      var cs := Chunks(text);
      assert cs == [text[..k]] + Chunks(text[k..]);
      assert cs[1..] == Chunks(text[k..]);
      assert text == text[..k] + text[k..];
    }
  }

  /** Every chunk holds between 1 and 8000 characters, and there are no
      chunks at all exactly when the text is empty. */
  lemma {:induction false} ChunkBounds(text: string)
    ensures Chunks(text) == [] <==> text == []
    ensures forall i :: 0 <= i < |Chunks(text)| ==> 1 <= |Chunks(text)[i]| <= ChunkSize
    decreases |text|
  {
    if |text| > ChunkSize {
      var k := SplitIndex(text[..ChunkSize]);
      ChunkBounds(text[k..]);
      var cs := Chunks(text);
      assert cs == [text[..k]] + Chunks(text[k..]);
      forall i | 0 <= i < |cs|
        ensures 1 <= |cs[i]| <= ChunkSize
      {
        if i > 0 {
          assert cs[i] == Chunks(text[k..])[i - 1];
        }
      }
    }
  }

  /** The text still to be split when chunk i is cut. */
  function Remainder(text: string, i: nat): (rest: string)
    decreases i
  {
    if i == 0 || |text| <= ChunkSize then text
    else Remainder(text[SplitIndex(text[..ChunkSize])..], i - 1)
  }

  /** Chunk i is cut from the remainder left by the chunks before it. A
      chunk before the last is cut from a remainder longer than 8000
      characters and ends with the last `.` or newline of the remainder's
      first 8000 characters (that character included), or is exactly 8000
      characters long when they hold neither. The last chunk is the whole
      remainder, of at most 8000 characters. */
  lemma {:induction false} ChunkCutPoints(text: string, i: nat)
    requires i < |Chunks(text)|
    ensures var rest := Remainder(text, i); var c := Chunks(text)[i];
      && 1 <= |c| <= |rest| && c == rest[..|c|]
      && (i < |Chunks(text)| - 1 ==>
            && |rest| > ChunkSize
            && ((exists j :: 0 <= j < ChunkSize && IsTerminator(rest[j])) ==>
                  IsTerminator(c[|c| - 1]) && forall j :: |c| <= j < ChunkSize ==> !IsTerminator(rest[j]))
            && ((forall j :: 0 <= j < ChunkSize ==> !IsTerminator(rest[j])) ==> |c| == ChunkSize))
      && (i == |Chunks(text)| - 1 ==> c == rest && |rest| <= ChunkSize)
    decreases i
  {
    if |text| > ChunkSize {
      var k := SplitIndex(text[..ChunkSize]);
      ChunksOfRest(text);
      if i > 0 {
        ChunkCutPoints(text[k..], i - 1);
      } else {
        ChunkBounds(text[k..]);
      }
    } else {
      ChunkBounds(text);
    }
  }

  /** One pass of the loop keeps the two loop invariants. */
  lemma {:induction false} SplitStep(text: string, chunks: seq<string>, rest: string, k: nat)
    requires |rest| > ChunkSize && k == SplitIndex(rest[..ChunkSize])
    requires chunks + Chunks(rest) == Chunks(text)
    requires Join(chunks) + rest == text
    ensures (chunks + [rest[..k]]) + Chunks(rest[k..]) == Chunks(text)
    ensures Join(chunks + [rest[..k]]) + rest[k..] == text
  {
    ChunksOfRest(rest);
    assert (chunks + [rest[..k]]) + Chunks(rest[k..]) == chunks + ([rest[..k]] + Chunks(rest[k..]));
    JoinAppend(chunks, rest[..k]);
    calc {
      Join(chunks + [rest[..k]]) + rest[k..];
      (Join(chunks) + rest[..k]) + rest[k..];
      Join(chunks) + (rest[..k] + rest[k..]);
      { assert rest[..k] + rest[k..] == rest; }
      Join(chunks) + rest;
    }
  }

  /** The loop of `generateSpeechFromLongText`: it returns the chunks and
      `totalProcessedChars`, which always equals the text's length (so the
      source's mismatch warning never fires). */
  method SplitIntoChunks(text: string) returns (chunks: seq<string>, totalProcessedChars: nat)
    ensures chunks == Chunks(text)
    ensures totalProcessedChars == |text|
  {
    chunks := [];
    var remainingText := text;
    totalProcessedChars := 0;
    while |remainingText| > 0
      invariant chunks + Chunks(remainingText) == Chunks(text)
      invariant Join(chunks) + remainingText == text
      invariant totalProcessedChars == |Join(chunks)|
      decreases |remainingText|
    {
      if |remainingText| <= ChunkSize {
        JoinAppend(chunks, remainingText);
        assert Chunks(remainingText) == [remainingText];
        chunks := chunks + [remainingText];
        totalProcessedChars := totalProcessedChars + |remainingText|;
        remainingText := [];
        break;
      }
      var splitIndex := SplitIndex(remainingText[..ChunkSize]);
      var currentChunk := remainingText[..splitIndex];
      SplitStep(text, chunks, remainingText, splitIndex);
      JoinAppend(chunks, currentChunk);
      chunks := chunks + [currentChunk];
      totalProcessedChars := totalProcessedChars + |currentChunk|;
      remainingText := remainingText[splitIndex..];
    }
    ChunksRoundTrip(text);
    assert Chunks(remainingText) == [];
    assert chunks == Chunks(text);
  }
}
