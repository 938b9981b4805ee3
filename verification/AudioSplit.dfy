/** Splitting a text into pieces short enough to be spoken, never inside a word. */
module AudioSplit {
  import opened PyText

  const MAX_CHUNK_LENGTH: nat := 200

  datatype Split = Chunks(chunks: seq<string>) | WordTooLong(start: nat)

  // The character class of the source: whitespace, the byte order mark, and ASCII punctuation
  // other than the backslash.
  predicate IsBreak(c: char) {
    || IsSpace(c) || c as int == 0xFEFF
    || '!' <= c <= '/' || ':' <= c <= '@' || c == '[' || ']' <= c <= '`' || '{' <= c <= '~'
  }

  // The characters the source lists.
  predicate Punctuation(c: char) {
    || c == '!' || c == '"' || c == '#' || c == '$' || c == '%' || c == '&' || c == '\'' || c == '('
    || c == ')' || c == '*' || c == '+' || c == ',' || c == '-' || c == '.' || c == '/' || c == ':'
    || c == ';' || c == '<' || c == '=' || c == '>' || c == '?' || c == '@' || c == '[' || c == ']'
    || c == '^' || c == '_' || c == '`' || c == '{' || c == '|' || c == '}' || c == '~'
  }

  lemma BreaksExactly(c: char)
    ensures IsBreak(c) <==> IsSpace(c) || c == '\U{FEFF}' || Punctuation(c)
    ensures 'a' <= c <= 'z' || 'A' <= c <= 'Z' || '0' <= c <= '9' || c == '\\' ==> !IsBreak(c)
  {
  }

  // More than a chunk of consecutive word characters from `p`.
  predicate LongWordAt(text: string, p: nat) {
    p + MAX_CHUNK_LENGTH < |text| && forall j :: p <= j <= p + MAX_CHUNK_LENGTH ==> !IsBreak(text[j])
  }

  // A chunk may end beside a break, on either side of it.
  predicate CutsAt(text: string, cut: nat) {
    0 < cut < |text| && (IsBreak(text[cut - 1]) || IsBreak(text[cut]))
  }

  // The latest cut in (start, limit], 0 when there is none.
  function LatestCut(text: string, start: nat, limit: nat): (cut: nat)
    ensures cut != 0 ==> start < cut <= limit && CutsAt(text, cut)
    ensures forall c: nat :: (if cut == 0 then start else cut) < c <= limit ==> !CutsAt(text, c)
  {
    if limit <= start then 0
    else if CutsAt(text, limit) then limit
    else LatestCut(text, start, limit - 1)
  }

  // The splitting meant: each chunk as long as the limit and the words allow.
  function Pieces(text: string, start: nat): Split
    requires start <= |text|
    decreases |text| - start
  {
    if |text| - start <= MAX_CHUNK_LENGTH then Chunks([text[start..]])
    else
      var cut := LatestCut(text, start, start + MAX_CHUNK_LENGTH);
      if cut == 0 then WordTooLong(start) else After([text[start..cut]], Pieces(text, cut))
  }

  function After(first: seq<string>, rest: Split): Split {
    match rest
    case Chunks(chunks) => Chunks(first + chunks)
    case WordTooLong(_) => rest
  }

  function Concat(chunks: seq<string>): string {
    if chunks == [] then "" else chunks[0] + Concat(chunks[1..])
  }

  // A window of a long word that starts before a cut would have the break inside it.
  lemma CutBreaksWords(text: string, start: nat, cut: nat, p: nat)
    requires CutsAt(text, cut) && start <= p < cut <= start + MAX_CHUNK_LENGTH
    ensures !LongWordAt(text, p)
  {
    assert p <= cut - 1 && cut <= p + MAX_CHUNK_LENGTH;
  }

  lemma NoCutIsLongWord(text: string, start: nat)
    requires start + MAX_CHUNK_LENGTH < |text| && LatestCut(text, start, start + MAX_CHUNK_LENGTH) == 0
    ensures LongWordAt(text, start)
  {
    assert !CutsAt(text, start + MAX_CHUNK_LENGTH);
    forall j | start <= j < start + MAX_CHUNK_LENGTH ensures !IsBreak(text[j]) {
      assert !CutsAt(text, j + 1);
    }
  }

  // Either the text comes back in chunks of 1 to 200 characters and no word is longer than a chunk,
  // or the result points at such a word.
  lemma {:induction false} PiecesAreTheText(text: string, start: nat)
    requires start <= |text|
    ensures Pieces(text, start).Chunks? ==>
      && Concat(Pieces(text, start).chunks) == text[start..]
      && (start < |text| ==> forall c :: c in Pieces(text, start).chunks ==> 0 < |c| <= MAX_CHUNK_LENGTH)
    ensures Pieces(text, start).Chunks? ==> forall p: nat :: start <= p ==> !LongWordAt(text, p)
    ensures Pieces(text, start).WordTooLong? ==> LongWordAt(text, Pieces(text, start).start)
    decreases |text| - start
  {
    if |text| - start > MAX_CHUNK_LENGTH {
      var cut := LatestCut(text, start, start + MAX_CHUNK_LENGTH);
      if cut == 0 {
        NoCutIsLongWord(text, start);
      } else {
        PiecesAreTheText(text, cut);
        forall p: nat | start <= p < cut ensures !LongWordAt(text, p) {
          CutBreaksWords(text, start, cut, p);
        }
        assert text[start..cut] + text[cut..] == text[start..];
      }
    }
  }

  // The error is raised exactly when a word does not fit.
  lemma RaisesExactly(text: string)
    ensures Pieces(text, 0).WordTooLong? <==> exists p: nat :: LongWordAt(text, p)
  {
    PiecesAreTheText(text, 0);
  }

  // Any other way to split: pieces of 1 to 200 characters that end beside a break.
  ghost predicate Splits(text: string, start: nat, chunks: seq<string>)
    requires start <= |text|
    decreases |chunks|
  {
    && chunks != [] && |chunks[0]| <= MAX_CHUNK_LENGTH
    && if |chunks| == 1 then chunks[0] == text[start..]
       else
         var cut := start + |chunks[0]|;
         && cut > start && CutsAt(text, cut) && chunks[0] == text[start..cut]
         && Splits(text, cut, chunks[1..])
  }

  lemma {:induction false} PiecesSplit(text: string, start: nat)
    requires start <= |text| && Pieces(text, start).Chunks?
    ensures Splits(text, start, Pieces(text, start).chunks)
    decreases |text| - start
  {
    if |text| - start > MAX_CHUNK_LENGTH {
      PiecesSplit(text, LatestCut(text, start, start + MAX_CHUNK_LENGTH));
    }
  }

  // Starting further on never takes more pieces.
  lemma {:induction false} FurtherIsFewer(text: string, from: nat, start: nat, other: seq<string>)
    requires from <= start <= |text| && Splits(text, from, other)
    ensures Pieces(text, start).Chunks? && |Pieces(text, start).chunks| <= |other|
    decreases |other|
  {
    if |text| - start > MAX_CHUNK_LENGTH {
      var cut := from + |other[0]|;
      if cut <= start {
        FurtherIsFewer(text, cut, start, other[1..]);
      } else {
        FurtherIsFewer(text, cut, LatestCut(text, start, start + MAX_CHUNK_LENGTH), other[1..]);
      }
    }
  }

  // Cutting as late as allowed takes the fewest pieces, and fails only where every way does.
  lemma FewestPieces(text: string, other: seq<string>)
    requires Splits(text, 0, other)
    ensures Pieces(text, 0).Chunks? && |Pieces(text, 0).chunks| <= |other|
  {
    FurtherIsFewer(text, 0, 0, other);
  }

  ghost predicate Splittable(text: string) {
    exists other :: Splits(text, 0, other)
  }

  lemma SplitsIfAnyDoes(text: string)
    ensures Pieces(text, 0).Chunks? <==> Splittable(text)
  {
    if Pieces(text, 0).Chunks? {
      PiecesSplit(text, 0);
    }
    if Splittable(text) {
      var other :| Splits(text, 0, other);
      FewestPieces(text, other);
    }
  }

  /** AudioCommand._last_space_or_punct. */
  method LastBreak(text: string, left: nat, right: nat) returns (i: int)
    requires left <= right < |text|
    ensures i == -1 ==> forall j :: left <= j <= right ==> !IsBreak(text[j])
    ensures i != -1 ==> left <= i <= right && IsBreak(text[i])
    ensures i != -1 ==> forall j :: i < j <= right ==> !IsBreak(text[j])
  {
    i := right;
    while i >= left
      invariant left - 1 <= i <= right
      invariant forall j :: i < j <= right ==> !IsBreak(text[j])
    {
      if IsBreak(text[i]) {
        return;
      }
      i := i - 1;
    }
    i := -1;
  }

  /** The cut the loop takes: at the limit when a break is beside it, else after the last break. */
  method CutFrom(text: string, start: nat) returns (cut: nat)
    requires start + MAX_CHUNK_LENGTH < |text|
    ensures cut == LatestCut(text, start, start + MAX_CHUNK_LENGTH)
  {
    var end := start + MAX_CHUNK_LENGTH - 1;
    if IsBreak(text[end]) || IsBreak(text[end + 1]) {
      assert CutsAt(text, end + 1);
      return end + 1;
    }
    var last := LastBreak(text, start, end);
    cut := last + 1;
    assert cut != 0 ==> CutsAt(text, cut);
    forall c: nat | (if cut == 0 then start else cut) < c <= end + 1 ensures !CutsAt(text, c) {}
  }

  /** AudioCommand._split_long_text. */
  method SplitLongText(text: string) returns (result: Split)
    ensures result == Pieces(text, 0)
  {
    var chunks: seq<string> := [];
    var start := 0;
    while |text| - start > MAX_CHUNK_LENGTH
      invariant start <= |text|
      invariant After(chunks, Pieces(text, start)) == Pieces(text, 0)
    {
      var cut := CutFrom(text, start);
      if cut == 0 {
        return WordTooLong(start);
      }
      chunks := chunks + [text[start..cut]];
      start := cut;
    }
    return Chunks(chunks + [text[start..]]);
  }
}
