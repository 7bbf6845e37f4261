/** Byte-string helpers shared by the interpreters of tool output:
    splitting on a one-character separator, as Go's `bytes.Split` does. */
module Text {

  /** Position of the first `c` in `s`, or `|s|` when `s` has none. */
  function IndexOf(s: string, c: char): (i: nat)
    ensures i <= |s|
    ensures i < |s| ==> s[i] == c
    ensures forall j :: 0 <= j < i ==> s[j] != c
  {
    if |s| == 0 then 0
    else if s[0] == c then 0
    else 1 + IndexOf(s[1..], c)
  }

  /** `bytes.Split(s, []byte{c})`: the pieces of `s` between occurrences of `c`.
      A string without `c` (the empty string included) is one piece. */
  function Split(s: string, c: char): (parts: seq<string>)
    ensures |parts| >= 1
    ensures forall k :: 0 <= k < |parts| ==> c !in parts[k]
    decreases |s|
  {
    var i := IndexOf(s, c);
    if i == |s| then [s] else [s[..i]] + Split(s[i + 1..], c)
  }

  /** `bytes.Join(parts, []byte{c})`, the inverse of `Split`. */
  function Join(parts: seq<string>, c: char): string
  {
    if |parts| == 0 then ""
    else if |parts| == 1 then parts[0]
    else parts[0] + [c] + Join(parts[1..], c)
  }

  /** Joining the pieces back with the separator gives the original string. */
  lemma {:induction false} JoinSplit(s: string, c: char)
    ensures Join(Split(s, c), c) == s
    decreases |s|
  {
    var i := IndexOf(s, c);
    if i < |s| {
      JoinSplit(s[i + 1..], c);
      assert s == s[..i] + [c] + s[i + 1..];
    }
  }

  /** A string with no separator in it is a single piece. */
  lemma NoSeparator(s: string, c: char)
    requires c !in s
    ensures Split(s, c) == [s]
  {
  }

  /** Splitting distributes over a separator: the pieces of `x + c + y`
      are the pieces of `x` followed by the pieces of `y`. */
  lemma {:induction false} SplitAround(x: string, y: string, c: char)
    ensures Split(x + [c] + y, c) == Split(x, c) + Split(y, c)
    decreases |x|
  {
    var s := x + [c] + y;
    var i := IndexOf(x, c);
    assert forall j :: 0 <= j < |x| ==> s[j] == x[j];
    if i == |x| {
      assert s[|x|] == c;
      assert IndexOf(s, c) == |x|;
      assert s[..|x|] == x;
      assert s[|x| + 1..] == y;
    } else {
      assert IndexOf(s, c) == i;
      assert s[..i] == x[..i];
      assert s[i + 1..] == x[i + 1..] + [c] + y;
      SplitAround(x[i + 1..], y, c);
    }
  }

  /** Splitting is the inverse of joining pieces that hold no separator. */
  lemma {:induction false} SplitJoin(parts: seq<string>, c: char)
    requires |parts| >= 1
    requires forall k :: 0 <= k < |parts| ==> c !in parts[k]
    ensures Split(Join(parts, c), c) == parts
  {
    if |parts| == 1 {
      NoSeparator(parts[0], c);
    } else {
      SplitJoin(parts[1..], c);
      NoSeparator(parts[0], c);
      SplitAround(parts[0], Join(parts[1..], c), c);
    }
  }

  /** The first piece is the longest prefix free of `c`: the whole string
      when `c` does not occur, otherwise the text before the first `c`. */
  lemma FirstPiece(s: string, c: char)
    ensures var p := Split(s, c)[0];
      p <= s && c !in p && (|p| == |s| || s[|p|] == c)
  {
    var i := IndexOf(s, c);
    var p := Split(s, c)[0];
    assert p == s[..i];
    forall j | 0 <= j < |p| ensures p[j] != c {
      assert p[j] == s[j];
    }
  }

  /** `line` occurs in `s` at position `i`, delimited on each side by a
      newline or by the start or end of `s`. */
  ghost predicate LineAt(s: string, line: string, i: nat)
  {
    i + |line| <= |s| && s[i..i + |line|] == line &&
    (i == 0 || s[i - 1] == '\n') &&
    (i + |line| == |s| || s[i + |line|] == '\n')
  }

  /** `line` is a complete line of `s`. */
  ghost predicate IsLineOf(s: string, line: string)
  {
    '\n' !in line && exists i: nat :: LineAt(s, line, i)
  }

  /** The pieces of a newline split are exactly the complete lines. */
  lemma LinesAreSplitPieces(s: string, line: string)
    ensures line in Split(s, '\n') <==> IsLineOf(s, line)
  {
    if line in Split(s, '\n') {
      PieceIsLine(s, line);
    }
    if IsLineOf(s, line) {
      var i: nat :| LineAt(s, line, i);
      LineAtIsPiece(s, line, i);
    }
  }

  lemma {:induction false} PieceIsLine(s: string, line: string)
    requires line in Split(s, '\n')
    ensures IsLineOf(s, line)
    decreases |s|
  {
    var i := IndexOf(s, '\n');
    if i == |s| {
      assert line == s;
      assert LineAt(s, line, 0);
    } else if line == s[..i] {
      assert LineAt(s, line, 0);
    } else {
      var rest := s[i + 1..];
      PieceIsLine(rest, line);
      var j: nat :| LineAt(rest, line, j);
      assert s[i + 1 + j..i + 1 + j + |line|] == rest[j..j + |line|];
      assert LineAt(s, line, i + 1 + j);
    }
  }

  lemma LineAtIsPiece(s: string, line: string, i: nat)
    requires '\n' !in line && LineAt(s, line, i)
    ensures line in Split(s, '\n')
  {
    var before, after := s[..i], s[i + |line|..];
    assert s == before + line + after;
    assert before != [] ==> before[|before| - 1] == s[i - 1];
    assert after != [] ==> after[0] == s[i + |line|];
    LineStartsTail(line, after);
    if before != [] {
      var b := before[..|before| - 1];
      assert before == b + ['\n'];
      assert s == b + ['\n'] + (line + after);
      SplitAround(b, line + after, '\n');
    }
  }

  /** A newline-free `line` followed by nothing or by a newline is the
      first piece of the split. */
  lemma LineStartsTail(line: string, after: string)
    requires '\n' !in line
    requires after == [] || after[0] == '\n'
    ensures Split(line + after, '\n')[0] == line
  {
    NoSeparator(line, '\n');
    if after != [] {
      assert line + after == line + ['\n'] + after[1..];
      SplitAround(line, after[1..], '\n');
    } else {
      assert line + after == line;
    }
  }
}
