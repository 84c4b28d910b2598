/** String operations of the Go standard library that the handlers rely on. */
module Text {

  /** White space as Go's `unicode.IsSpace` defines it. */
  predicate IsSpace(c: char) {
    || c == ' ' || '\t' <= c <= '\r' || c == '\U{85}' || c == '\U{A0}' || c == '\U{1680}'
    || '\U{2000}' <= c <= '\U{200A}' || c == '\U{2028}' || c == '\U{2029}' || c == '\U{202F}'
    || c == '\U{205F}' || c == '\U{3000}'
  }

  predicate IsDigit(c: char) {
    '0' <= c <= '9'
  }

  predicate IsDigits(s: string) {
    forall i | 0 <= i < |s| :: IsDigit(s[i])
  }

  /** `strings.TrimSpace`. */
  function Trim(s: string): (r: string)
    ensures r == "" || (!IsSpace(r[0]) && !IsSpace(r[|r| - 1]))
  {
    if s == "" then s
    else if IsSpace(s[0]) then Trim(s[1..])
    else if IsSpace(s[|s| - 1]) then Trim(s[..|s| - 1])
    else s
  }

  /** Trimmed text is exactly the text that trimming leaves alone. */
  lemma TrimIdempotent(s: string)
    ensures Trim(Trim(s)) == Trim(s)
  {
    var r := Trim(s);
  }

  function ToLower(s: string): (r: string)
    ensures |r| == |s|
  {
    seq(|s|, i requires 0 <= i < |s| => if 'A' <= s[i] <= 'Z' then s[i] - 'A' + 'a' else s[i])
  }

  /** `strings.Contains`. */
  predicate Contains(s: string, sub: string) {
    sub <= s || (s != "" && Contains(s[1..], sub))
  }

  /** `strings.Split` by one character: never empty, and one more piece than separators. */
  function Split(s: string, sep: char): (pieces: seq<string>)
    ensures pieces != []
  {
    if s == "" then [""]
    else
      var rest := Split(s[1..], sep);
      if s[0] == sep then [""] + rest else [[s[0]] + rest[0]] + rest[1..]
  }

  /** `strings.Join`. */
  function Join(pieces: seq<string>, sep: string): string {
    if pieces == [] then ""
    else if |pieces| == 1 then pieces[0]
    else pieces[0] + sep + Join(pieces[1..], sep)
  }

  // ----- what these operations mean -----

  predicate AllSpace(s: string) {
    forall i | 0 <= i < |s| :: IsSpace(s[i])
  }

  lemma AllSpaceConcat(a: string, b: string)
    requires AllSpace(a) && AllSpace(b)
    ensures AllSpace(a + b)
  {
    forall i | 0 <= i < |a + b| ensures IsSpace((a + b)[i]) {
      assert (a + b)[i] == if i < |a| then a[i] else b[i - |a|];
    }
  }

  lemma OneSpace(c: char)
    requires IsSpace(c)
    ensures AllSpace([c])
  {
  }

  /** A text with white space around a core. */
  ghost predicate Around(s: string, core: string, front: string, back: string) {
    s == front + core + back && AllSpace(front) && AllSpace(back)
  }

  lemma MoreFront(c: char, rest: string, core: string, front: string, back: string)
    requires AllSpace([c]) && Around(rest, core, front, back)
    ensures Around([c] + rest, core, [c] + front, back)
  {
    AllSpaceConcat([c], front);
    assert [c] + (front + core + back) == [c] + front + core + back;
  }

  lemma MoreBack(c: char, rest: string, core: string, front: string, back: string)
    requires AllSpace([c]) && Around(rest, core, front, back)
    ensures Around(rest + [c], core, front, back + [c])
  {
    AllSpaceConcat(back, [c]);
    assert front + core + back + [c] == front + core + (back + [c]);
  }

  /** Trimming takes white space from both ends and nothing else. */
  lemma {:induction false} TrimParts(s: string) returns (front: string, back: string)
    ensures Around(s, Trim(s), front, back)
  {
    if s == "" || (!IsSpace(s[0]) && !IsSpace(s[|s| - 1])) {
      front, back := "", "";
    } else if IsSpace(s[0]) {
      front, back := TrimParts(s[1..]);
      OneSpace(s[0]);
      MoreFront(s[0], s[1..], Trim(s), front, back);
      front := [s[0]] + front;
      assert s == [s[0]] + s[1..];
    } else {
      var init, last := s[..|s| - 1], s[|s| - 1];
      front, back := TrimParts(init);
      OneSpace(last);
      MoreBack(last, init, Trim(s), front, back);
      back := back + [last];
      assert s == init + [last];
    }
  }

  /** White space is all that trims to nothing. */
  lemma TrimEmpty(s: string)
    ensures Trim(s) == "" <==> AllSpace(s)
  {
    var front, back := TrimParts(s);
    if Trim(s) == "" {
      AllSpaceConcat(front, back);
    } else {
      assert s[|front|] == Trim(s)[0];
    }
  }

  /** The same letter but for its case. */
  predicate SameLetter(a: char, b: char) {
    || a == b
    || ('A' <= a <= 'Z' && b as int == a as int + 32)
    || ('A' <= b <= 'Z' && a as int == b as int + 32)
  }

  predicate EqualFold(a: string, b: string) {
    |a| == |b| && forall i | 0 <= i < |a| :: SameLetter(a[i], b[i])
  }

  lemma LowerEqual(a: string, b: string)
    ensures ToLower(a) == ToLower(b) <==> EqualFold(a, b)
  {
    var x, y := ToLower(a), ToLower(b);
    if x == y {
      forall i | 0 <= i < |a| ensures SameLetter(a[i], b[i]) {
        assert x[i] == y[i];
      }
    }
    if EqualFold(a, b) {
      assert forall i | 0 <= i < |a| :: x[i] == y[i];
    }
  }

  ghost predicate OccursAt(s: string, sub: string, i: nat) {
    i + |sub| <= |s| && s[i..i + |sub|] == sub
  }

  lemma AtStart(s: string, sub: string)
    ensures OccursAt(s, sub, 0) <==> sub <= s
  {
    if |sub| <= |s| {
      assert s[0..|sub|] == s[..|sub|];
    }
  }

  lemma SliceShift(s: string, i: nat, j: nat)
    requires i <= j < |s|
    ensures s[1..][i..j] == s[i + 1..j + 1]
  {
    var x, y := s[1..][i..j], s[i + 1..j + 1];
    assert |x| == |y| && forall k | 0 <= k < j - i :: x[k] == s[i + 1 + k] && y[k] == s[i + 1 + k];
  }

  lemma OccursLater(s: string, sub: string, i: nat)
    requires s != ""
    ensures OccursAt(s[1..], sub, i) <==> OccursAt(s, sub, i + 1)
  {
    if i + 1 + |sub| <= |s| {
      SliceShift(s, i, i + |sub|);
    }
  }

  /** A text contains another if it occurs somewhere in it. */
  lemma {:induction false} ContainsMeans(s: string, sub: string)
    ensures Contains(s, sub) <==> exists i: nat :: OccursAt(s, sub, i)
  {
    AtStart(s, sub);
    if sub <= s {
    } else if s == "" {
    } else {
      ContainsMeans(s[1..], sub);
      if i: nat :| OccursAt(s, sub, i) {
        assert i != 0;
        OccursLater(s, sub, i - 1);
      }
      if i: nat :| OccursAt(s[1..], sub, i) {
        OccursLater(s, sub, i);
      }
    }
  }

  ghost predicate OccursFoldAt(s: string, sub: string, i: nat) {
    i + |sub| <= |s| && EqualFold(s[i..i + |sub|], sub)
  }

  /** In lower case, a text contains another if it occurs in it regardless of the case of its letters. */
  lemma ContainsFold(s: string, sub: string)
    ensures Contains(ToLower(s), ToLower(sub)) <==> exists i: nat :: OccursFoldAt(s, sub, i)
  {
    ContainsMeans(ToLower(s), ToLower(sub));
    forall i: nat ensures OccursAt(ToLower(s), ToLower(sub), i) <==> OccursFoldAt(s, sub, i) {
      if i + |sub| <= |s| {
        assert ToLower(s)[i..i + |sub|] == ToLower(s[i..i + |sub|]);
        LowerEqual(s[i..i + |sub|], sub);
      }
    }
  }

  /** The text between two places, each at an end or at a separator, with no separator in between. */
  ghost predicate PieceAt(s: string, sep: char, piece: string, i: nat, j: nat) {
    && i <= j <= |s| && piece == s[i..j] && sep !in piece
    && (i == 0 || s[i - 1] == sep) && (j == |s| || s[j] == sep)
  }

  function FirstPiece(s: string, sep: char): (piece: string)
    ensures PieceAt(s, sep, piece, 0, |piece|)
  {
    if s == "" || s[0] == sep then "" else [s[0]] + FirstPiece(s[1..], sep)
  }

  lemma OnlyFirstPiece(s: string, sep: char, piece: string, j: nat)
    requires PieceAt(s, sep, piece, 0, j)
    ensures piece == FirstPiece(s, sep)
  {
    var first := FirstPiece(s, sep);
    assert forall k | 0 <= k < |first| :: first[k] == s[k] && first[k] != sep;
    assert forall k | 0 <= k < j :: piece[k] == s[k] && piece[k] != sep;
    assert j == |first|;
  }

  ghost predicate LaterPiece(s: string, sep: char, piece: string) {
    exists i: nat, j: nat :: i > 0 && PieceAt(s, sep, piece, i, j)
  }

  lemma PieceShift(s: string, sep: char, piece: string, i: nat, j: nat)
    requires s != "" && i > 0
    ensures PieceAt(s[1..], sep, piece, i, j) <==> PieceAt(s, sep, piece, i + 1, j + 1)
  {
    if i <= j < |s| {
      SliceShift(s, i, j);
    }
  }

  lemma PieceAfterFirst(s: string, sep: char, piece: string, j: nat)
    requires s != "" && s[0] == sep
    ensures PieceAt(s[1..], sep, piece, 0, j) <==> PieceAt(s, sep, piece, 1, j + 1)
  {
    if j < |s| {
      SliceShift(s, 0, j);
    }
  }

  lemma {:induction false} SplitParts(s: string, sep: char, piece: string)
    ensures Split(s, sep)[0] == FirstPiece(s, sep)
    ensures piece in Split(s, sep)[1..] <==> LaterPiece(s, sep, piece)
  {
    if s != "" {
      var rest := s[1..];
      SplitParts(rest, sep, piece);
      assert Split(rest, sep) == [Split(rest, sep)[0]] + Split(rest, sep)[1..];
      if s[0] == sep {
        assert Split(s, sep)[1..] == Split(rest, sep);
      } else {
        assert Split(s, sep)[1..] == Split(rest, sep)[1..];
      }
      LaterShift(s, sep, piece);
    }
  }

  lemma LaterShift(s: string, sep: char, piece: string)
    requires s != ""
    ensures LaterPiece(s, sep, piece) <==>
            LaterPiece(s[1..], sep, piece) || (s[0] == sep && piece == FirstPiece(s[1..], sep))
  {
    var rest := s[1..];
    if LaterPiece(s, sep, piece) {
      var i: nat, j: nat :| i > 0 && PieceAt(s, sep, piece, i, j);
      if i > 1 {
        PieceShift(s, sep, piece, i - 1, j - 1);
      } else {
        PieceAfterFirst(s, sep, piece, j - 1);
        OnlyFirstPiece(rest, sep, piece, j - 1);
      }
    }
    if LaterPiece(rest, sep, piece) {
      var i: nat, j: nat :| i > 0 && PieceAt(rest, sep, piece, i, j);
      PieceShift(s, sep, piece, i, j);
    }
    if s[0] == sep && piece == FirstPiece(rest, sep) {
      PieceAfterFirst(s, sep, piece, |piece|);
    }
  }

  /** Splitting yields exactly the texts between separators. */
  lemma SplitMeans(s: string, sep: char, piece: string)
    ensures piece in Split(s, sep) <==> exists i: nat, j: nat :: PieceAt(s, sep, piece, i, j)
  {
    SplitParts(s, sep, piece);
    assert Split(s, sep) == [Split(s, sep)[0]] + Split(s, sep)[1..];
    if piece == FirstPiece(s, sep) {
      assert PieceAt(s, sep, piece, 0, |piece|);
    }
    if i: nat, j: nat :| PieceAt(s, sep, piece, i, j) {
      if i == 0 {
        OnlyFirstPiece(s, sep, piece, j);
      }
    }
  }

  lemma {:induction false} OnePiece(piece: string, sep: char)
    requires sep !in piece
    ensures Split(piece, sep) == [piece]
  {
    if piece != "" {
      assert piece[0] in piece;
      OnePiece(piece[1..], sep);
      assert piece == [piece[0]] + piece[1..];
    }
  }

  lemma {:induction false} SplitOff(piece: string, rest: string, sep: char)
    requires sep !in piece
    ensures Split(piece + [sep] + rest, sep) == [piece] + Split(rest, sep)
  {
    var all := piece + [sep] + rest;
    if piece == "" {
      assert all[1..] == rest;
    } else {
      assert piece[0] in piece && piece == [piece[0]] + piece[1..];
      assert all[1..] == piece[1..] + [sep] + rest;
      SplitOff(piece[1..], rest, sep);
    }
  }

  /** Splitting undoes joining when no piece holds the separator. */
  lemma {:induction false} SplitJoined(pieces: seq<string>, sep: char)
    requires pieces != [] && forall piece | piece in pieces :: sep !in piece
    ensures Split(Join(pieces, [sep]), sep) == pieces
  {
    assert pieces[0] in pieces;
    if |pieces| == 1 {
      OnePiece(pieces[0], sep);
    } else {
      SplitJoined(pieces[1..], sep);
      SplitOff(pieces[0], Join(pieces[1..], [sep]), sep);
    }
  }
}
