// The helper crate shared by every day: the delimiter tokeniser, neighbour
// enumeration, the row-major grid `Cells` and its builder `CellsBuilder`.
module Processor {
  import opened Wrappers
  import opened Numbers

  /** The line fold of `process`: `parse_line` applied to each line in
    * turn, stopping at the first error. */
  function ParseLines<S>(init: S, lines: seq<string>, parse: (S, string) -> Result<S>): (r: Result<S>)
  {
    if lines == [] then Ok(init)
    else
      match ParseLines(init, lines[..|lines| - 1], parse)
      case Err(e) => Err(e)
      case Ok(s) => parse(s, lines[|lines| - 1])
  }

  /** Folding one more line continues from where the fold stopped. */
  lemma ParseLinesAppend<S>(init: S, lines: seq<string>, line: string, parse: (S, string) -> Result<S>)
    ensures ParseLines(init, lines + [line], parse) ==
              match ParseLines(init, lines, parse)
              case Err(e) => Err(e)
              case Ok(s) => parse(s, line)
  {
    assert (lines + [line])[..|lines|] == lines;
  }

  /** The line fold over two runs of lines continues from where the first
    * stopped. */
  lemma {:induction false} ParseLinesConcat<S>(init: S, a: seq<string>, b: seq<string>, parse: (S, string) -> Result<S>)
    ensures ParseLines(init, a + b, parse) ==
              match ParseLines(init, a, parse)
              case Err(e) => Err(e)
              case Ok(s) => ParseLines(s, b, parse)
    decreases |b|
  {
    if b == [] {
      assert a + b == a;
    } else {
      var front := b[..|b| - 1];
      var last := b[|b| - 1];
      assert a + b == (a + front) + [last];
      ParseLinesAppend(init, a + front, last, parse);
      ParseLinesConcat(init, a, front, parse);
      match ParseLines(init, a, parse)
      case Err(e) =>
      case Ok(s) =>
        ParseLinesAppend(s, front, last, parse);
        assert front + [last] == b;
    }
  }
  /** `reverse`: the characters of `s` in the opposite order. */
  function Reverse(s: string): (r: string)
    ensures |r| == |s|
    ensures forall i | 0 <= i < |s| :: r[i] == s[|s| - 1 - i]
  {
    seq(|s|, i requires 0 <= i < |s| => s[|s| - 1 - i])
  }

  lemma ReverseReverse(s: string)
    ensures Reverse(Reverse(s)) == s
  {
    var r := Reverse(Reverse(s));
    assert forall i | 0 <= i < |s| :: r[i] == s[i];
  }

  // ---------------------------------------------------------------------
  // Tokeniser

  predicate AllIn(s: string, delims: set<char>) {
    forall i | 0 <= i < |s| :: s[i] in delims
  }

  predicate NoneIn(s: string, delims: set<char>) {
    forall i | 0 <= i < |s| :: s[i] !in delims
  }

  /** A word read from a character stream: its text, the delimiter that
    * ended it (None at the end of the input) and what remains unread. */
  datatype Word = Word(text: string, delimiter: Option<char>, rest: string)

  /** What `read_word` returns when `consumed` has been read so far and
    * `rest` is still unread: a delimiter is skipped while nothing is
    * consumed and ends the word otherwise; the end of the input ends it
    * too; any other character joins the word. */
  function ReadFrom(rest: string, consumed: string, delims: set<char>): (r: Option<Word>)
    requires NoneIn(consumed, delims)
    ensures r.None? <==> consumed == [] && AllIn(rest, delims)
    ensures r.Some? ==> |r.value.text| > 0 && NoneIn(r.value.text, delims) && |r.value.rest| <= |rest|
    ensures r.Some? && consumed == [] ==> |r.value.rest| < |rest|
    decreases |rest|
  {
    if rest == [] then
      if consumed == [] then None else Some(Word(consumed, None, []))
    else
      assert forall i | 1 <= i < |rest| :: rest[i] == rest[1..][i - 1];
      if rest[0] in delims then
        if consumed == [] then ReadFrom(rest[1..], [], delims)
        else Some(Word(consumed, Some(rest[0]), rest[1..]))
      else ReadFrom(rest[1..], consumed + [rest[0]], delims)
  }

  /** What `read_word` reads from the start of `chars`: leading delimiters
    * are skipped, then the word runs to the next delimiter, which is
    * consumed, or to the end; None when only delimiters remain. */
  function NextWord(chars: string, delims: set<char>): (r: Option<Word>)
    ensures r.None? <==> AllIn(chars, delims)
    ensures r.Some? ==> |r.value.text| > 0 && NoneIn(r.value.text, delims) && |r.value.rest| < |chars|
  {
    ReadFrom(chars, [], delims)
  }

  /** `read_word`: the character loop, proved to read exactly `NextWord`. */
  method ReadWord(chars: string, delims: set<char>) returns (r: Option<Word>)
    ensures r == NextWord(chars, delims)
  {
    var consumed: string := [];
    var next: Option<char> := Some('/');
    var i := 0;
    while next.Some?
      invariant i <= |chars| && next.Some? && NoneIn(consumed, delims)
      invariant ReadFrom(chars[i..], consumed, delims) == NextWord(chars, delims)
      decreases |chars| - i
    {
      if i == |chars| {
        next := None;
        break;
      }
      next := Some(chars[i]);
      i := i + 1;
      var c := chars[i - 1];
      assert chars[i - 1..][0] == c && chars[i - 1..][1..] == chars[i..];
      if c in delims {
        if consumed == [] {
          continue;
        } else {
          break;
        }
      }
      consumed := consumed + [c];
    }
    if consumed == [] {
      r := None;
    } else {
      r := Some(Word(consumed, next, chars[i..]));
    }
  }

  /** The words `read_word` yields when it is called until it returns None. */
  function Words(chars: string, delims: set<char>): (r: seq<string>)
    ensures forall i | 0 <= i < |r| :: |r[i]| > 0 && NoneIn(r[i], delims)
    ensures r == [] <==> AllIn(chars, delims)
    decreases |chars|
  {
    match NextWord(chars, delims)
    case None => []
    case Some(w) => [w.text] + Words(w.rest, delims)
  }

  /** The words separated by `sep`. */
  function Join(words: seq<string>, sep: string): string {
    if words == [] then []
    else if |words| == 1 then words[0]
    else words[0] + sep + Join(words[1..], sep)
  }

  /** Leading delimiters do not change the next word. */
  lemma {:induction false} NextWordSkipsDelimiters(ds: string, s: string, delims: set<char>)
    requires AllIn(ds, delims)
    ensures NextWord(ds + s, delims) == NextWord(s, delims)
    decreases |ds|
  {
    if ds == [] {
      assert ds + s == s;
    } else {
      assert (ds + s)[0] == ds[0] && (ds + s)[1..] == ds[1..] + s;
      NextWordSkipsDelimiters(ds[1..], s, delims);
    }
  }

  /** Characters that are not delimiters join the word being read. */
  lemma {:induction false} ReadFromWord(w: string, s: string, consumed: string, delims: set<char>)
    requires NoneIn(consumed, delims) && NoneIn(w, delims)
    ensures ReadFrom(w + s, consumed, delims) == ReadFrom(s, consumed + w, delims)
    decreases |w|
  {
    if w == [] {
      assert w + s == s && consumed + w == consumed;
    } else {
      assert (w + s)[0] == w[0] && (w + s)[1..] == w[1..] + s;
      assert consumed + [w[0]] + w[1..] == consumed + w;
      ReadFromWord(w[1..], s, consumed + [w[0]], delims);
    }
  }

  /** A word followed by a delimiter reads back as that word, that
    * delimiter and what follows. */
  lemma NextWordSplits(w: string, d: char, rest: string, delims: set<char>)
    requires |w| > 0 && NoneIn(w, delims) && d in delims
    ensures NextWord(w + [d] + rest, delims) == Some(Word(w, Some(d), rest))
  {
    ReadFromWord(w, [d] + rest, [], delims);
    assert w + [d] + rest == w + ([d] + rest);
    assert [] + w == w;
    assert ([d] + rest)[1..] == rest;
  }

  /** A word on its own reads back whole. */
  lemma NextWordWhole(w: string, delims: set<char>)
    requires |w| > 0 && NoneIn(w, delims)
    ensures NextWord(w, delims) == Some(Word(w, None, []))
  {
    ReadFromWord(w, [], [], delims);
    assert w + [] == w && [] + w == w;
  }

  lemma WordsSkipDelimiters(ds: string, s: string, delims: set<char>)
    requires AllIn(ds, delims)
    ensures Words(ds + s, delims) == Words(s, delims)
  {
    NextWordSkipsDelimiters(ds, s, delims);
  }

  /** Reading words back from words joined by delimiters gives the words. */
  lemma {:induction false} WordsOfJoin(words: seq<string>, sep: string, delims: set<char>)
    requires |sep| > 0 && AllIn(sep, delims)
    requires forall i | 0 <= i < |words| :: |words[i]| > 0 && NoneIn(words[i], delims)
    ensures Words(Join(words, sep), delims) == words
  {
    if |words| == 1 {
      NextWordWhole(words[0], delims);
      assert Words([], delims) == [];
    } else if |words| > 1 {
      var tail := Join(words[1..], sep);
      var joined := Join(words, sep);
      assert joined == words[0] + [sep[0]] + (sep[1..] + tail);
      NextWordSplits(words[0], sep[0], sep[1..] + tail, delims);
      assert Words(joined, delims) == [words[0]] + Words(sep[1..] + tail, delims);
      WordsSkipDelimiters(sep[1..], tail, delims);
      WordsOfJoin(words[1..], sep, delims);
      assert words == [words[0]] + words[1..];
    }
  }

  /** A value parsed from the next word, with the word's delimiter and
    * what remains unread. */
  datatype Token<T> = Token(value: T, delimiter: Option<char>, rest: string)

  /** `read_next`: read a word and parse it; an error when no word remains
    * or when the word does not parse. */
  function ReadNext<T>(chars: string, delims: set<char>, parse: string -> Option<T>): (r: Result<Token<T>>)
    ensures r.Err? <==> NextWord(chars, delims).None? || parse(NextWord(chars, delims).value.text).None?
    ensures r.Ok? ==> r.value.delimiter == NextWord(chars, delims).value.delimiter
                      && r.value.rest == NextWord(chars, delims).value.rest
                      && Some(r.value.value) == parse(NextWord(chars, delims).value.text)
  {
    match NextWord(chars, delims)
    case None => Err("No word found to convert to integer")
    case Some(w) =>
      match parse(w.text)
      case None => Err("Failed parsing word")
      case Some(v) => Ok(Token(v, w.delimiter, w.rest))
  }

  /** The position of the last occurrence of `x` in `s`. */
  function LastIndexOf<T(==)>(s: seq<T>, x: T): (r: Option<nat>)
    ensures r.Some? <==> x in s
    ensures r.Some? ==> r.value < |s| && s[r.value] == x && x !in s[r.value + 1..]
  {
    if s == [] then None
    else if s[|s| - 1] == x then Some(|s| - 1)
    else
      var r := LastIndexOf(s[..|s| - 1], x);
      assert r.Some? ==> s[r.value + 1..] == s[..|s| - 1][r.value + 1..] + [s[|s| - 1]];
      assert x in s[..|s| - 1] <==> x in s by {
        assert s == s[..|s| - 1] + [s[|s| - 1]];
      }
      r
  }

  // ---------------------------------------------------------------------
  // Neighbours

  const DiagonalDeltas: seq<(int, int)> :=
    [(-1, -1), (0, -1), (1, -1), (-1, 0), (1, 0), (-1, 1), (0, 1), (1, 1)]
  const CartesianDeltas: seq<(int, int)> := [(0, -1), (-1, 0), (1, 0), (0, 1)]

  /** `adjacent_coords`: the centre moved by each delta, in delta order,
    * keeping only the coordinates inside `sides`. */
  function AdjacentCoords(centre: (nat, nat), sides: (nat, nat), deltas: seq<(int, int)>): (r: seq<(nat, nat)>)
    ensures |r| <= |deltas|
    ensures forall c | c in r :: c.0 < sides.0 && c.1 < sides.1
  {
    if deltas == [] then []
    else
      var d := deltas[0];
      var tail := AdjacentCoords(centre, sides, deltas[1..]);
      var x := centre.0 + d.0;
      var y := centre.1 + d.1;
      if 0 <= x < sides.0 && 0 <= y < sides.1 then [(x as nat, y as nat)] + tail else tail
  }

  /** Every adjacent coordinate is the centre moved by one of the deltas. */
  lemma {:induction false} AdjacentCoordsFromDelta(centre: (nat, nat), sides: (nat, nat), deltas: seq<(int, int)>, c: (nat, nat))
    requires c in AdjacentCoords(centre, sides, deltas)
    ensures (c.0 - centre.0, c.1 - centre.1) in deltas
  {
    if deltas != [] {
      var d := deltas[0];
      if c != (centre.0 + d.0, centre.1 + d.1) {
        AdjacentCoordsFromDelta(centre, sides, deltas[1..], c);
      }
    }
  }

  /** Every diagonal delta is a unit move other than staying put. */
  lemma DiagonalDeltasAreUnitMoves()
    ensures forall d | d in DiagonalDeltas :: -1 <= d.0 <= 1 && -1 <= d.1 <= 1 && d != (0, 0)
  {
  }

  /** The centre moved by any delta is an adjacent coordinate when it is in bounds. */
  lemma {:induction false} AdjacentCoordsFound(centre: (nat, nat), sides: (nat, nat), deltas: seq<(int, int)>, d: (int, int), c: (nat, nat))
    requires d in deltas && c.0 < sides.0 && c.1 < sides.1
    requires c.0 == centre.0 + d.0 && c.1 == centre.1 + d.1
    ensures c in AdjacentCoords(centre, sides, deltas)
  {
    if deltas[0] != d {
      AdjacentCoordsFound(centre, sides, deltas[1..], d, c);
    }
  }

  /** Every unit move other than staying put is a diagonal delta. */
  lemma UnitMoveIsDiagonalDelta(dx: int, dy: int)
    requires -1 <= dx <= 1 && -1 <= dy <= 1 && (dx, dy) != (0, 0)
    ensures (dx, dy) in DiagonalDeltas
  {
    if dy == -1 {
      assert DiagonalDeltas[dx + 1] == (dx, dy);
    } else if dy == 0 {
      assert DiagonalDeltas[if dx == -1 then 3 else 4] == (dx, dy);
    } else {
      assert DiagonalDeltas[dx + 6] == (dx, dy);
    }
  }

  /** A neighbour one step away in any direction is among the diagonal
    * adjacent coordinates when it is in bounds. */
  lemma DiagonalNeighbourFound(centre: (nat, nat), sides: (nat, nat), c: (nat, nat))
    requires c != centre && c.0 < sides.0 && c.1 < sides.1
    requires -1 <= c.0 - centre.0 <= 1 && -1 <= c.1 - centre.1 <= 1
    ensures c in AdjacentCoords(centre, sides, DiagonalDeltas)
  {
    var d := (c.0 - centre.0, c.1 - centre.1);
    UnitMoveIsDiagonalDelta(d.0, d.1);
    AdjacentCoordsFound(centre, sides, DiagonalDeltas, d, c);
  }

  /** `adjacent_coords_diagonal`: the up to eight in-bounds neighbours. */
  function AdjacentDiagonal(centre: (nat, nat), sides: (nat, nat)): (r: seq<(nat, nat)>)
    ensures |r| <= 8 && centre !in r
    ensures forall c | c in r ::
              c.0 < sides.0 && c.1 < sides.1 &&
              -1 <= c.0 - centre.0 <= 1 && -1 <= c.1 - centre.1 <= 1
    ensures forall c: (nat, nat) | c != centre && c.0 < sides.0 && c.1 < sides.1 &&
                                   -1 <= c.0 - centre.0 <= 1 && -1 <= c.1 - centre.1 <= 1 :: c in r
  {
    DiagonalCoordsAreNeighbours(centre, sides);
    AdjacentCoords(centre, sides, DiagonalDeltas)
  }

  lemma DiagonalCoordsAreNeighbours(centre: (nat, nat), sides: (nat, nat))
    ensures var r := AdjacentCoords(centre, sides, DiagonalDeltas);
            centre !in r &&
            (forall c | c in r :: -1 <= c.0 - centre.0 <= 1 && -1 <= c.1 - centre.1 <= 1) &&
            (forall c: (nat, nat) | c != centre && c.0 < sides.0 && c.1 < sides.1 &&
                                    -1 <= c.0 - centre.0 <= 1 && -1 <= c.1 - centre.1 <= 1 :: c in r)
  {
    DiagonalCoordsSound(centre, sides);
    DiagonalCoordsComplete(centre, sides);
  }

  lemma DiagonalCoordsSound(centre: (nat, nat), sides: (nat, nat))
    ensures var r := AdjacentCoords(centre, sides, DiagonalDeltas);
            forall c | c in r :: -1 <= c.0 - centre.0 <= 1 && -1 <= c.1 - centre.1 <= 1 && c != centre
  {
    var r := AdjacentCoords(centre, sides, DiagonalDeltas);
    DiagonalDeltasAreUnitMoves();
    forall c | c in r
      ensures -1 <= c.0 - centre.0 <= 1 && -1 <= c.1 - centre.1 <= 1 && c != centre
    {
      AdjacentCoordsFromDelta(centre, sides, DiagonalDeltas, c);
    }
  }

  lemma DiagonalCoordsComplete(centre: (nat, nat), sides: (nat, nat))
    ensures var r := AdjacentCoords(centre, sides, DiagonalDeltas);
            forall c: (nat, nat) | c != centre && c.0 < sides.0 && c.1 < sides.1 &&
                                   -1 <= c.0 - centre.0 <= 1 && -1 <= c.1 - centre.1 <= 1 :: c in r
  {
    forall c: (nat, nat) | c != centre && c.0 < sides.0 && c.1 < sides.1 &&
                           -1 <= c.0 - centre.0 <= 1 && -1 <= c.1 - centre.1 <= 1
      ensures c in AdjacentCoords(centre, sides, DiagonalDeltas)
    {
      DiagonalNeighbourFound(centre, sides, c);
    }
  }

  /** One step up, down, left or right apart. */
  predicate Touching(a: (nat, nat), b: (nat, nat)) {
    (a.0 == b.0 && (a.1 == b.1 + 1 || b.1 == a.1 + 1)) ||
    (a.1 == b.1 && (a.0 == b.0 + 1 || b.0 == a.0 + 1))
  }

  /** `adjacent_coords_cartesian`: the up to four in-bounds neighbours. */
  function AdjacentCartesian(centre: (nat, nat), sides: (nat, nat)): (r: seq<(nat, nat)>)
    ensures |r| <= 4 && centre !in r
    ensures forall c | c in r :: c.0 < sides.0 && c.1 < sides.1 && Touching(c, centre)
    ensures forall c: (nat, nat) | c.0 < sides.0 && c.1 < sides.1 && Touching(c, centre) :: c in r
  {
    CartesianCoordsAreNeighbours(centre, sides);
    AdjacentCoords(centre, sides, CartesianDeltas)
  }

  lemma CartesianCoordsAreNeighbours(centre: (nat, nat), sides: (nat, nat))
    ensures var r := AdjacentCoords(centre, sides, CartesianDeltas);
            centre !in r && (forall c | c in r :: Touching(c, centre)) &&
            (forall c: (nat, nat) | c.0 < sides.0 && c.1 < sides.1 && Touching(c, centre) :: c in r)
  {
    CartesianCoordsSound(centre, sides);
    CartesianCoordsComplete(centre, sides);
  }

  lemma CartesianCoordsSound(centre: (nat, nat), sides: (nat, nat))
    ensures forall c | c in AdjacentCoords(centre, sides, CartesianDeltas) :: Touching(c, centre) && c != centre
  {
    forall c | c in AdjacentCoords(centre, sides, CartesianDeltas)
      ensures Touching(c, centre) && c != centre
    {
      AdjacentCoordsFromDelta(centre, sides, CartesianDeltas, c);
    }
  }

  /** Every step up, down, left or right is a cartesian delta. */
  lemma UnitStepIsCartesianDelta(dx: int, dy: int)
    requires (dx == 0 && (dy == -1 || dy == 1)) || (dy == 0 && (dx == -1 || dx == 1))
    ensures (dx, dy) in CartesianDeltas
  {
    if dy == -1 {
      assert CartesianDeltas[0] == (dx, dy);
    } else if dy == 1 {
      assert CartesianDeltas[3] == (dx, dy);
    } else if dx == -1 {
      assert CartesianDeltas[1] == (dx, dy);
    } else {
      assert CartesianDeltas[2] == (dx, dy);
    }
  }

  lemma CartesianCoordsComplete(centre: (nat, nat), sides: (nat, nat))
    ensures forall c: (nat, nat) | c.0 < sides.0 && c.1 < sides.1 && Touching(c, centre) ::
              c in AdjacentCoords(centre, sides, CartesianDeltas)
  {
    forall c: (nat, nat) | c.0 < sides.0 && c.1 < sides.1 && Touching(c, centre)
      ensures c in AdjacentCoords(centre, sides, CartesianDeltas)
    {
      var d := (c.0 - centre.0, c.1 - centre.1);
      UnitStepIsCartesianDelta(d.0, d.1);
      AdjacentCoordsFound(centre, sides, CartesianDeltas, d, c);
    }
  }

  // ---------------------------------------------------------------------
  // Row-major index arithmetic

  /** The index of (x, y) in a grid stored row by row. */
  function RowMajor(x: nat, y: nat, width: nat): nat {
    Mul(y, width) + x
  }

  /** Every in-bounds coordinate has its index inside the contents. */
  lemma {:induction false} RowMajorInRange(x: nat, y: nat, width: nat, height: nat)
    requires x < width && y < height
    ensures RowMajor(x, y, width) < Mul(height, width)
  {
    if y < height - 1 {
      RowMajorInRange(x, y, width, height - 1);
    }
  }

  /** The cell at (x, y) of a grid stored row by row. */
  function CellAt<T>(contents: seq<T>, width: nat, height: nat, x: nat, y: nat): T
    requires |contents| == Mul(height, width) && x < width && y < height
  {
    RowMajorInRange(x, y, width, height);
    contents[RowMajor(x, y, width)]
  }

  /** The contents with the cells at two coordinates exchanged: the same
    * cells, rearranged. */
  function Swapped<T>(c: seq<T>, width: nat, height: nat, x1: nat, y1: nat, x2: nat, y2: nat): (r: seq<T>)
    requires |c| == Mul(height, width) && x1 < width && y1 < height && x2 < width && y2 < height
    ensures |r| == |c| && multiset(r) == multiset(c)
  {
    RowMajorInRange(x1, y1, width, height);
    RowMajorInRange(x2, y2, width, height);
    var i1, i2 := RowMajor(x1, y1, width), RowMajor(x2, y2, width);
    c[i1 := c[i2]][i2 := c[i1]]
  }

  /** The two exchanged cells hold each other's values. */
  lemma SwappedEnds<T>(c: seq<T>, width: nat, height: nat, x1: nat, y1: nat, x2: nat, y2: nat)
    requires |c| == Mul(height, width) && x1 < width && y1 < height && x2 < width && y2 < height
    ensures var r := Swapped(c, width, height, x1, y1, x2, y2);
            CellAt(r, width, height, x1, y1) == CellAt(c, width, height, x2, y2) &&
            CellAt(r, width, height, x2, y2) == CellAt(c, width, height, x1, y1)
  {
    RowMajorInRange(x1, y1, width, height);
    RowMajorInRange(x2, y2, width, height);
  }

  /** Every cell other than the two exchanged ones is as it was. */
  lemma SwappedElsewhere<T>(c: seq<T>, width: nat, height: nat, x1: nat, y1: nat, x2: nat, y2: nat, x: nat, y: nat)
    requires |c| == Mul(height, width) && x1 < width && y1 < height && x2 < width && y2 < height
    requires x < width && y < height && !(x == x1 && y == y1) && !(x == x2 && y == y2)
    ensures CellAt(Swapped(c, width, height, x1, y1, x2, y2), width, height, x, y) == CellAt(c, width, height, x, y)
  {
    RowMajorInRange(x1, y1, width, height);
    RowMajorInRange(x2, y2, width, height);
    RowMajorInRange(x, y, width, height);
    RowMajorDistinct(x, y, x1, y1, width);
    RowMajorDistinct(x, y, x2, y2, width);
  }

  /** After the exchange each of the two cells holds the other's value and
    * every other cell is as it was. */
  lemma SwappedAt<T>(c: seq<T>, width: nat, height: nat, x1: nat, y1: nat, x2: nat, y2: nat)
    requires |c| == Mul(height, width) && x1 < width && y1 < height && x2 < width && y2 < height
    ensures var r := Swapped(c, width, height, x1, y1, x2, y2);
            CellAt(r, width, height, x1, y1) == CellAt(c, width, height, x2, y2) &&
            CellAt(r, width, height, x2, y2) == CellAt(c, width, height, x1, y1) &&
            forall x: nat, y: nat | x < width && y < height && (x, y) != (x1, y1) && (x, y) != (x2, y2) ::
              CellAt(r, width, height, x, y) == CellAt(c, width, height, x, y)
  {
    RowMajorInRange(x1, y1, width, height);
    RowMajorInRange(x2, y2, width, height);
    SwapKeepsOthers(c, width, x1, y1, x2, y2);
    forall x: nat, y: nat | x < width && y < height && (x, y) != (x1, y1) && (x, y) != (x2, y2)
      ensures CellAt(Swapped(c, width, height, x1, y1, x2, y2), width, height, x, y) == CellAt(c, width, height, x, y)
    {
      RowMajorInRange(x, y, width, height);
    }
  }

  /** Distinct coordinates inside the width have distinct indexes. */
  lemma {:induction false} RowMajorInjective(x: nat, y: nat, x': nat, y': nat, width: nat)
    requires x < width && x' < width
    requires RowMajor(x, y, width) == RowMajor(x', y', width)
    ensures x == x' && y == y'
  {
    if y > 0 && y' > 0 {
      RowMajorInjective(x, y - 1, x', y' - 1, width);
    }
  }

  /** Every index below the grid's size is the row-major index of the
    * in-bounds coordinate (i % width, i / width). */
  lemma RowMajorDecode(i: nat, width: nat, height: nat)
    requires i < Mul(height, width)
    ensures width > 0 && i % width < width && i / width < height
    ensures RowMajor(i % width, i / width, width) == i
  {
    MulIsProduct(height, width);
    assert width > 0;
    DivMod(i, width);
    MulIsProduct(i / width, width);
    MulLess(i / width, height, width);
  }

  /** Distinct coordinates inside the width have distinct indexes. */
  lemma RowMajorDistinct(x: nat, y: nat, x': nat, y': nat, width: nat)
    requires x < width && x' < width && (x, y) != (x', y')
    ensures RowMajor(x, y, width) != RowMajor(x', y', width)
  {
    if RowMajor(x, y, width) == RowMajor(x', y', width) {
      RowMajorInjective(x, y, x', y', width);
    }
  }

  /** Exchanging the cells at two coordinates leaves every other cell, and
    * when the coordinates coincide the whole grid, as it was. */
  lemma SwapKeepsOthers<T>(c: seq<T>, width: nat, x1: nat, y1: nat, x2: nat, y2: nat)
    requires x1 < width && x2 < width
    requires RowMajor(x1, y1, width) < |c| && RowMajor(x2, y2, width) < |c|
    ensures var i1, i2 := RowMajor(x1, y1, width), RowMajor(x2, y2, width);
            var swapped := c[i1 := c[i2]][i2 := c[i1]];
            ((x1, y1) == (x2, y2) ==> swapped == c) &&
            ((x1, y1) != (x2, y2) ==> i1 != i2) &&
            forall x: nat, y: nat | (x, y) != (x1, y1) && (x, y) != (x2, y2) && x < width && RowMajor(x, y, width) < |c| ::
              swapped[RowMajor(x, y, width)] == c[RowMajor(x, y, width)]
  {
    if (x1, y1) != (x2, y2) {
      RowMajorDistinct(x1, y1, x2, y2, width);
    }
    forall x: nat, y: nat | (x, y) != (x1, y1) && (x, y) != (x2, y2) && x < width && RowMajor(x, y, width) < |c|
      ensures RowMajor(x, y, width) != RowMajor(x1, y1, width) && RowMajor(x, y, width) != RowMajor(x2, y2, width)
    {
      RowMajorDistinct(x, y, x1, y1, width);
      RowMajorDistinct(x, y, x2, y2, width);
    }
  }

  // ---------------------------------------------------------------------
  // Cells

  /** A width * height block stored row by row. */
  class Cells<T> {
    var contents: seq<T>
    var width: nat
    var height: nat

    ghost predicate Valid()
      reads this
    {
      |contents| == Mul(height, width)
    }

    /** `with_dimension`: every cell holds `initial`. */
    constructor WithDimension(width: nat, height: nat, initial: T)
      ensures Valid() && this.width == width && this.height == height
      ensures forall i | 0 <= i < |contents| :: contents[i] == initial
    {
      this.width := width;
      this.height := height;
      contents := seq(Mul(height, width), _ => initial);
    }

    /** The struct literal `Cells { contents, side_lengths }`. */
    constructor FromContents(contents: seq<T>, width: nat, height: nat)
      requires |contents| == Mul(height, width)
      ensures Valid() && this.contents == contents && this.width == width && this.height == height
    {
      this.contents := contents;
      this.width := width;
      this.height := height;
    }

    /** `in_bounds`: negative coordinates are never in bounds. */
    predicate InBounds(x: int, y: int)
      reads this
    {
      0 <= x < width && 0 <= y < height
    }

    function Index(x: nat, y: nat): nat
      reads this
    {
      RowMajor(x, y, width)
    }

    /** `get`: the cell at (x, y), an error outside the grid. */
    function Get(x: nat, y: nat): (r: Result<T>)
      reads this
      requires Valid()
      ensures r.Ok? <==> InBounds(x, y)
      ensures r.Ok? ==> Index(x, y) < |contents| && r.value == contents[Index(x, y)]
    {
      if !InBounds(x, y) then Err("not in bounds")
      else
        RowMajorInRange(x, y, width, height);
        Ok(contents[Index(x, y)])
    }

    /** The cell at an in-bounds coordinate, for callers that checked. */
    function At(x: nat, y: nat): T
      reads this
      requires Valid() && InBounds(x, y)
    {
      Get(x, y).value
    }

    /** Writing through `get_mut`: the one cell changes, every other cell
      * and the dimensions stay; out of bounds is an error and changes nothing. */
    method Set(x: nat, y: nat, value: T) returns (r: Result<()>)
      requires Valid()
      modifies this
      ensures Valid() && width == old(width) && height == old(height)
      ensures r.Ok? <==> InBounds(x, y)
      ensures r.Err? ==> contents == old(contents)
      ensures r.Ok? ==> Index(x, y) < |old(contents)| && contents == old(contents)[Index(x, y) := value]
      ensures r.Ok? ==> Get(x, y) == Ok(value)
      ensures forall x': nat, y': nat | (x', y') != (x, y) :: Get(x', y') == old(Get(x', y'))
    {
      if !InBounds(x, y) {
        return Err("not in bounds");
      }
      RowMajorInRange(x, y, width, height);
      contents := contents[Index(x, y) := value];
      r := Ok(());
      forall x': nat, y': nat | (x', y') != (x, y) && InBounds(x', y')
        ensures Index(x', y') != Index(x, y)
      {
        if Index(x', y') == Index(x, y) {
          RowMajorInjective(x', y', x, y, width);
        }
      }
    }

    /** `swap`: exchanges exactly the two cells; an error, and no change,
      * when either is out of bounds. */
    method Swap(x1: nat, y1: nat, x2: nat, y2: nat) returns (r: Result<()>)
      requires Valid()
      modifies this
      ensures Valid() && width == old(width) && height == old(height)
      ensures r.Ok? <==> InBounds(x1, y1) && InBounds(x2, y2)
      ensures r.Err? ==> contents == old(contents)
      ensures multiset(contents) == multiset(old(contents))
      ensures r.Ok? ==> Get(x1, y1) == old(Get(x2, y2)) && Get(x2, y2) == old(Get(x1, y1))
      ensures r.Ok? ==> contents == Swapped(old(contents), width, height, x1, y1, x2, y2)
      ensures forall x: nat, y: nat | (x, y) != (x1, y1) && (x, y) != (x2, y2) :: Get(x, y) == old(Get(x, y))
    {
      if !InBounds(x1, y1) {
        return Err("first not in bounds");
      }
      if !InBounds(x2, y2) {
        return Err("second not in bounds");
      }
      RowMajorInRange(x1, y1, width, height);
      RowMajorInRange(x2, y2, width, height);
      var i1 := Index(x1, y1);
      var i2 := Index(x2, y2);
      var a := contents[i1];
      var b := contents[i2];
      SwapKeepsOthers(contents, width, x1, y1, x2, y2);
      contents := contents[i1 := b][i2 := a];
      r := Ok(());
    }

    /** What `iter` yields: every cell once, in row-major order, with its
      * coordinate. */
    function Items(): (r: seq<((nat, nat), T)>)
      reads this
      requires Valid()
      ensures |r| == |contents|
      ensures forall i | 0 <= i < |r| ::
                InBounds(r[i].0.0, r[i].0.1) && Index(r[i].0.0, r[i].0.1) == i && r[i].1 == contents[i]
    {
      if contents == [] then []
      else
        RowMajorDecode(0, width, height);
        var r := seq(|contents|, i requires 0 <= i < |contents| && width > 0 reads this =>
                     ((i % width, i / width), contents[i]));
        forall i | 0 <= i < |r|
          ensures InBounds(r[i].0.0, r[i].0.1) && Index(r[i].0.0, r[i].0.1) == i
        {
          RowMajorDecode(i, width, height);
        }
        r
    }

    /** Each in-bounds coordinate sits at its row-major index in `Items`. */
    lemma ItemsCoverGrid(x: nat, y: nat)
      requires Valid() && InBounds(x, y)
      ensures Index(x, y) < |Items()| && Items()[Index(x, y)] == ((x, y), At(x, y))
    {
      RowMajorInRange(x, y, width, height);
      var it := Items()[Index(x, y)];
      RowMajorInjective(x, y, it.0.0, it.0.1, width);
    }
  }

  /** `CellsIter`: a cursor over a grid in row-major order. */
  class CellsIter<T> {
    const cells: Cells<T>
    var x: nat
    var y: nat

    ghost predicate Valid()
      reads this, cells
    {
      cells.Valid() && (x < cells.width || x == 0)
    }

    function Position(): nat
      reads this, cells
    {
      RowMajor(x, y, cells.width)
    }

    /** `Cells::iter`: a cursor at the first cell. */
    constructor (cells: Cells<T>)
      requires cells.Valid()
      ensures Valid() && this.cells == cells && Position() == 0
    {
      this.cells := cells;
      x := 0;
      y := 0;
    }

    /** `next`: the item at the cursor, then the cursor moves one cell on
      * (wrapping to the start of the next row); None once past the end. */
    method Next() returns (r: Option<((nat, nat), T)>)
      requires Valid()
      modifies this
      ensures Valid()
      ensures old(Position()) < |cells.contents| ==>
                r == Some(cells.Items()[old(Position())]) && Position() == old(Position()) + 1
      ensures old(Position()) >= |cells.contents| ==> r == None && x == old(x) && y == old(y)
    {
      var index := RowMajor(x, y, cells.width);
      if index >= |cells.contents| {
        return None;
      }
      var coord := (x, y);
      var item := cells.Items()[index];
      RowMajorInjective(x, y, item.0.0, item.0.1, cells.width);
      if x == cells.width - 1 {
        y := y + 1;
        x := 0;
      } else {
        x := x + 1;
      }
      r := Some((coord, cells.contents[index]));
    }
  }

  // ---------------------------------------------------------------------
  // CellsBuilder

  /** A line padded at the end with `default` up to `width` cells. */
  function PadLine<T>(line: seq<T>, width: nat, default: T): (r: seq<T>)
    requires |line| <= width
    ensures |r| == width && r[..|line|] == line
    ensures forall i | |line| <= i < width :: r[i] == default
  {
    line + seq(width - |line|, _ => default)
  }

  /** The contents `build_cells` produces: each line padded, row after row. */
  function Padded<T>(lines: seq<seq<T>>, width: nat, default: T): (r: seq<T>)
    requires forall i | 0 <= i < |lines| :: |lines[i]| <= width
  {
    if lines == [] then []
    else Padded(lines[..|lines| - 1], width, default) + PadLine(lines[|lines| - 1], width, default)
  }

  /** The padded contents hold |lines| full rows; the cell at (x, y) is the
    * line's own cell, or the default past the end of a short line. */
  lemma {:induction false} PaddedAt<T>(lines: seq<seq<T>>, width: nat, default: T)
    requires forall i | 0 <= i < |lines| :: |lines[i]| <= width
    ensures |Padded(lines, width, default)| == Mul(|lines|, width)
    ensures forall x: nat, y: nat | x < width && y < |lines| ::
              RowMajor(x, y, width) < Mul(|lines|, width) &&
              Padded(lines, width, default)[RowMajor(x, y, width)] ==
                (if x < |lines[y]| then lines[y][x] else default)
  {
    if lines != [] {
      var n := |lines| - 1;
      var front := lines[..n];
      PaddedAt(front, width, default);
      var p := Padded(lines, width, default);
      assert p == Padded(front, width, default) + PadLine(lines[n], width, default);
      forall x: nat, y: nat | x < width && y < |lines|
        ensures RowMajor(x, y, width) < Mul(|lines|, width)
        ensures p[RowMajor(x, y, width)] == (if x < |lines[y]| then lines[y][x] else default)
      {
        RowMajorInRange(x, y, width, |lines|);
        if y < n {
          assert front[y] == lines[y];
        }
      }
    }
  }

  /** One line of `build_cells`: its cells, then `default` up to the width. */
  method AppendPadded<T>(acc: seq<T>, line: seq<T>, width: nat, default: T) returns (out: seq<T>)
    requires |line| <= width
    ensures out == acc + PadLine(line, width, default)
  {
    out := acc;
    var j := 0;
    while j < |line|
      invariant j <= |line|
      invariant out == acc + line[..j]
    {
      out := out + [line[j]];
      j := j + 1;
    }
    while |out| < |acc| + width
      invariant |acc| + |line| <= |out| <= |acc| + width
      invariant out == acc + line + seq(|out| - |acc| - |line|, _ => default)
    {
      out := out + [default];
    }
  }

  /** Grid rows collected line by line before their width is known. */
  class CellsBuilder<T> {
    var lines: seq<seq<T>>
    var maxWidth: nat

    ghost predicate Valid()
      reads this
    {
      forall i | 0 <= i < |lines| :: |lines[i]| <= maxWidth
    }

    /** `new_empty`. */
    constructor NewEmpty()
      ensures Valid() && lines == [] && maxWidth == 0
    {
      lines := [];
      maxWidth := 0;
    }

    /** `new_line`: starts an empty line. */
    method NewLine()
      requires Valid()
      modifies this
      ensures Valid() && lines == old(lines) + [[]] && maxWidth == old(maxWidth)
      ensures CurrentCell() == None
    {
      lines := lines + [[]];
    }

    /** `add_cell`: appends to the last line and widens `max_width` to that
      * line's length; an error, and no change, before any line exists. */
    method AddCell(cell: T) returns (r: Result<()>)
      requires Valid()
      modifies this
      ensures Valid()
      ensures r.Ok? <==> old(|lines|) > 0
      ensures r.Err? ==> lines == old(lines) && maxWidth == old(maxWidth)
      ensures r.Ok? ==>
                |lines| == old(|lines|) &&
                lines[..|lines| - 1] == old(lines[..|lines| - 1]) &&
                lines[|lines| - 1] == old(lines[|lines| - 1]) + [cell] &&
                maxWidth == (if old(maxWidth) < |lines[|lines| - 1]| then |lines[|lines| - 1]| else old(maxWidth))
      ensures r.Ok? ==> CurrentCell() == Some((|lines[|lines| - 1]| - 1, |lines| - 1))
      ensures r.Ok? ==> Get(|lines[|lines| - 1]| - 1, |lines| - 1) == Ok(cell)
    {
      if lines == [] {
        return Err("Cannot add a cell when no line has been added");
      }
      var last := lines[|lines| - 1] + [cell];
      lines := lines[|lines| - 1 := last];
      if maxWidth < |last| {
        maxWidth := |last|;
      }
      r := Ok(());
    }

    /** `get`: the cell at (x, y) once it has been added. */
    function Get(x: nat, y: nat): (r: Result<T>)
      reads this
      ensures r.Ok? <==> y < |lines| && x < |lines[y]|
      ensures r.Ok? ==> r.value == lines[y][x]
    {
      if y >= |lines| then Err("No line yet")
      else if x >= |lines[y]| then Err("No cell yet")
      else Ok(lines[y][x])
    }

    /** Writing through `get_mut`. */
    method Set(x: nat, y: nat, value: T) returns (r: Result<()>)
      requires Valid()
      modifies this
      ensures Valid() && maxWidth == old(maxWidth) && |lines| == old(|lines|)
      ensures r.Ok? <==> y < old(|lines|) && x < old(|lines[y]|)
      ensures r.Err? ==> lines == old(lines)
      ensures r.Ok? ==> lines == old(lines)[y := old(lines)[y][x := value]]
      ensures r.Ok? ==> Get(x, y) == Ok(value)
    {
      if y >= |lines| || x >= |lines[y]| {
        return Err("No cell yet");
      }
      lines := lines[y := lines[y][x := value]];
      r := Ok(());
    }

    /** `current_cell`: the coordinate of the last cell added to the last
      * line, None when there is no line or it is still empty. */
    function CurrentCell(): (r: Option<(nat, nat)>)
      reads this
      ensures r.Some? <==> |lines| > 0 && |lines[|lines| - 1]| > 0
      ensures r.Some? ==> Get(r.value.0, r.value.1).Ok? && r.value.1 == |lines| - 1
    {
      if lines == [] then None
      else
        var line := lines[|lines| - 1];
        if line == [] then None else Some((|line| - 1, |lines| - 1))
    }

    /** `build_cells`: an error, and no change, without lines or with zero
      * width; otherwise a fresh max_width * |lines| grid in which each line
      * is padded at its end with `default`. The builder's lines are taken. */
    method BuildCells(default: T) returns (r: Result<Cells<T>>)
      requires Valid()
      modifies this
      ensures Valid()
      ensures r.Err? <==> old(|lines|) == 0 || old(maxWidth) == 0
      ensures r.Err? ==> lines == old(lines) && maxWidth == old(maxWidth)
      ensures r.Ok? ==>
                fresh(r.value) && r.value.Valid() &&
                r.value.width == old(maxWidth) && r.value.height == old(|lines|) &&
                r.value.contents == Padded(old(lines), old(maxWidth), default) &&
                lines == [] && maxWidth == old(maxWidth)
      ensures r.Ok? ==>
                forall x: nat, y: nat | x < r.value.width && y < r.value.height ::
                  r.value.Get(x, y) == Ok(if x < |old(lines)[y]| then old(lines)[y][x] else default)
    {
      if lines == [] {
        return Err("No point in building cells when there are no lines");
      }
      if maxWidth == 0 {
        return Err("No point in building cells when the width is 0");
      }
      var taken := lines;
      var width := maxWidth;
      lines := [];
      var height := |taken|;
      var acc: seq<T> := [];
      var y := 0;
      while y < height
        invariant y <= height
        invariant acc == Padded(taken[..y], width, default)
        invariant lines == [] && maxWidth == width
      {
        acc := AppendPadded(acc, taken[y], width, default);
        assert taken[..y + 1][..y] == taken[..y];
        y := y + 1;
      }
      assert taken[..height] == taken;
      PaddedAt(taken, width, default);
      var cells := new Cells.FromContents(acc, width, height);
      r := Ok(cells);
    }
  }
}
