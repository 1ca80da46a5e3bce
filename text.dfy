/**
 * The few operations on Python `str` values that the ingestion code uses:
 * substring test (`t in s`), `s.split(sep)`, `sep.join(parts)`, `s.strip()`,
 * `s.replace(a, b)` for one-character `a` and `b`, and the character class
 * `[A-Za-z0-9_]`.
 */
module Text {

  /** `t` occurs in `s` starting at index `i`. */
  predicate OccursAt(s: string, t: string, i: int) {
    0 <= i && i + |t| <= |s| && s[i..i + |t|] == t
  }

  /** Python's `t in s`: `t` occurs in `s` as a contiguous substring. */
  predicate Contains(s: string, t: string) {
    exists i | 0 <= i <= |s| :: OccursAt(s, t, i)
  }

  /**
   * Python's `s.split(sep)` for a non-empty separator: scanning left to
   * right, the string is cut at every occurrence of `sep` that does not
   * overlap an earlier cut. There is always at least one piece.
   */
  function Split(s: string, sep: string): (parts: seq<string>)
    requires |sep| > 0
    ensures |parts| >= 1
    decreases |s|
  {
    if |s| < |sep| then [s]
    else if s[..|sep|] == sep then [""] + Split(s[|sep|..], sep)
    else
      var rest := Split(s[1..], sep);
      [[s[0]] + rest[0]] + rest[1..]
  }

  /** Python's `sep.join(parts)`. */
  function Join(parts: seq<string>, sep: string): string {
    if |parts| == 0 then ""
    else if |parts| == 1 then parts[0]
    else parts[0] + sep + Join(parts[1..], sep)
  }

  /** Python's `s.split(sep)[-1]`. */
  function LastPiece(s: string, sep: string): string
    requires |sep| > 0
  {
    var parts := Split(s, sep);
    parts[|parts| - 1]
  }

  /** Python's `s.replace(a, b)` for single characters `a` and `b`. */
  function ReplaceChar(s: string, a: char, b: char): (r: string)
    ensures |r| == |s|
    ensures forall i :: 0 <= i < |s| ==> r[i] == if s[i] == a then b else s[i]
  {
    if s == [] then [] else [if s[0] == a then b else s[0]] + ReplaceChar(s[1..], a, b)
  }

  /** The characters Python's `str.isspace` accepts, which `str.strip()` removes. */
  predicate IsSpace(c: char) {
    c == ' ' || '\t' <= c <= '\r' || '\U{1c}' <= c <= '\U{1f}' || c == '\U{85}' || c == '\U{a0}'
    || c == '\U{1680}' || '\U{2000}' <= c <= '\U{200a}' || c == '\U{2028}' || c == '\U{2029}'
    || c == '\U{202f}' || c == '\U{205f}' || c == '\U{3000}'
  }

  /** Python's `s.lstrip()`: the suffix left after removing the leading whitespace. */
  function TrimStart(s: string): (r: string)
    ensures |r| <= |s| && r == s[|s| - |r|..]
    ensures forall i :: 0 <= i < |s| - |r| ==> IsSpace(s[i])
    ensures r == [] || !IsSpace(r[0])
  {
    if s != [] && IsSpace(s[0]) then TrimStart(s[1..]) else s
  }

  /** Python's `s.rstrip()`: the prefix left after removing the trailing whitespace. */
  function TrimEnd(s: string): (r: string)
    ensures |r| <= |s| && r == s[..|r|]
    ensures forall i :: |r| <= i < |s| ==> IsSpace(s[i])
    ensures r == [] || !IsSpace(r[|r| - 1])
  {
    if s != [] && IsSpace(s[|s| - 1]) then TrimEnd(s[..|s| - 1]) else s
  }

  /** `r` is the part of `s` starting at `k`, and everything of `s` before and after it is whitespace. */
  predicate SpaceAround(s: string, r: string, k: int) {
    0 <= k <= |s| - |r| && r == s[k..k + |r|] &&
    (forall i :: 0 <= i < k ==> IsSpace(s[i])) &&
    (forall i :: k + |r| <= i < |s| ==> IsSpace(s[i]))
  }

  /**
   * Python's `s.strip()`: the middle of `s` between a run of leading and a
   * run of trailing whitespace, starting and ending with a non-whitespace
   * character.
   */
  function Strip(s: string): (r: string)
    ensures exists k :: SpaceAround(s, r, k)
    ensures r == [] || (!IsSpace(r[0]) && !IsSpace(r[|r| - 1]))
  {
    var t := TrimStart(s);
    var r := TrimEnd(t);
    var k := |s| - |t|;
    assert t == s[k..];
    assert r == s[k..k + |r|];
    forall i | k + |r| <= i < |s|
      ensures IsSpace(s[i])
    {
      assert s[i] == t[i - k];
    }
    assert SpaceAround(s, r, k);
    r
  }

  /** The regular-expression class `[A-Za-z0-9_]`. */
  predicate IsWordChar(c: char) {
    'A' <= c <= 'Z' || 'a' <= c <= 'z' || '0' <= c <= '9' || c == '_'
  }

  /** `re.sub(r"[^A-Za-z0-9_]", "", s)`: drop every character outside the class. */
  function KeepWordChars(s: string): (r: string)
    ensures forall i :: 0 <= i < |r| ==> IsWordChar(r[i])
  {
    if s == [] then []
    else if IsWordChar(s[0]) then [s[0]] + KeepWordChars(s[1..])
    else KeepWordChars(s[1..])
  }

  /** A single character survives the substitution exactly when it is in the class. */
  lemma KeepWordCharsSingle(c: char)
    ensures KeepWordChars([c]) == if IsWordChar(c) then [c] else []
  {
    assert [c][1..] == [];
  }

  /** The substitution works character by character: the kept characters stay in their order. */
  lemma {:induction false} KeepWordCharsAppend(a: string, b: string)
    ensures KeepWordChars(a + b) == KeepWordChars(a) + KeepWordChars(b)
  {
    if a == [] {
      assert a + b == b;
    } else {
      KeepWordCharsAppend(a[1..], b);
      assert (a + b)[0] == a[0];
      assert (a + b)[1..] == a[1..] + b;
    }
  }

  // ---------------------------------------------------------------------
  // Split and Join
  // ---------------------------------------------------------------------

  /** Joining the pieces with the separator gives back the string. */
  lemma {:induction false} JoinSplit(s: string, sep: string)
    requires |sep| > 0
    ensures Join(Split(s, sep), sep) == s
    decreases |s|
  {
    if |s| < |sep| {
    } else if s[..|sep|] == sep {
      var rest := Split(s[|sep|..], sep);
      JoinSplit(s[|sep|..], sep);
      assert Split(s, sep) == [""] + rest;
      assert ([""] + rest)[1..] == rest;
      assert Join([""] + rest, sep) == "" + sep + Join(rest, sep);
      assert s == sep + s[|sep|..];
    } else {
      var rest := Split(s[1..], sep);
      JoinSplit(s[1..], sep);
      assert Split(s, sep) == [[s[0]] + rest[0]] + rest[1..];
      JoinExtendFirst([s[0]], rest, sep);
      assert s == [s[0]] + s[1..];
    }
  }

  /** Prefixing the first piece prefixes the joined string. */
  lemma JoinExtendFirst(a: string, parts: seq<string>, sep: string)
    requires |parts| >= 1
    ensures Join([a + parts[0]] + parts[1..], sep) == a + Join(parts, sep)
  {
    var extended := [a + parts[0]] + parts[1..];
    if |parts| > 1 {
      assert extended[1..] == parts[1..];
      assert Join(extended, sep) == (a + parts[0]) + sep + Join(parts[1..], sep);
    }
  }

  /** A string without the first character of `t` does not contain `t`. */
  lemma NotContainsFirstChar(s: string, t: string)
    requires |t| > 0 && t[0] !in s
    ensures !Contains(s, t)
  {
    forall i | 0 <= i <= |s|
      ensures !OccursAt(s, t, i)
    {
      if i + |t| <= |s| {
        assert s[i..i + |t|][0] == s[i];
      }
    }
  }

  /** No piece of a split contains the separator, and the first piece is a prefix of the string. */
  lemma {:induction false} SplitPiecesAreFree(s: string, sep: string)
    requires |sep| > 0
    ensures Split(s, sep)[0] <= s
    ensures forall i :: 0 <= i < |Split(s, sep)| ==> !Contains(Split(s, sep)[i], sep)
    decreases |s|
  {
    if |s| < |sep| {
      NotContainsShorter(s, sep);
    } else if s[..|sep|] == sep {
      SplitPiecesAreFree(s[|sep|..], sep);
      NotContainsShorter("", sep);
      var parts := Split(s, sep);
      assert parts[1..] == Split(s[|sep|..], sep);
    } else {
      var rest := Split(s[1..], sep);
      SplitPiecesAreFree(s[1..], sep);
      var q := [s[0]] + rest[0];
      assert q <= s;
      if Contains(q, sep) {
        var i :| 0 <= i <= |q| && OccursAt(q, sep, i);
        assert 0 <= i && i + |sep| <= |q| && q[i..i + |sep|] == sep;
        if i == 0 {
          assert false;
        } else {
          assert rest[0][i - 1..i - 1 + |sep|] == q[i..i + |sep|];
          assert OccursAt(rest[0], sep, i - 1);
          assert false;
        }
      }
      var parts := Split(s, sep);
      assert parts[1..] == rest[1..];
    }
  }

  lemma NotContainsShorter(s: string, t: string)
    requires |s| < |t|
    ensures !Contains(s, t)
  {
  }

  /** Joining at least two pieces puts the separator right before the last one. */
  lemma {:induction false} JoinLast(parts: seq<string>, sep: string)
    requires |parts| >= 2
    ensures Join(parts, sep) == Join(parts[..|parts| - 1], sep) + sep + parts[|parts| - 1]
    decreases |parts|
  {
    if |parts| > 2 {
      JoinLast(parts[1..], sep);
      assert parts[1..][..|parts| - 2] == parts[1..|parts| - 1];
      assert parts[..|parts| - 1][1..] == parts[1..|parts| - 1];
    } else {
      assert parts[..1] == [parts[0]];
    }
  }

  /**
   * `s.split(sep)[-1]` is the text after the last occurrence of `sep`
   * (the whole string when `sep` does not occur), and it holds no `sep`.
   */
  lemma LastPieceAfterLastSeparator(s: string, sep: string)
    requires |sep| > 0
    ensures !Contains(LastPiece(s, sep), sep)
    ensures !Contains(s, sep) ==> LastPiece(s, sep) == s
    ensures Contains(s, sep) ==>
              |LastPiece(s, sep)| + |sep| <= |s| &&
              s[|s| - |LastPiece(s, sep)| - |sep|..] == sep + LastPiece(s, sep)
  {
    var parts := Split(s, sep);
    var last := parts[|parts| - 1];
    SplitPiecesAreFree(s, sep);
    JoinSplit(s, sep);
    if |parts| == 1 {
      assert Join(parts, sep) == parts[0];
    } else {
      JoinLast(parts, sep);
      var front := Join(parts[..|parts| - 1], sep);
      assert s == front + sep + last;
      assert s[|front|..|front| + |sep|] == sep;
      assert OccursAt(s, sep, |front|);
      assert s[|s| - |last| - |sep|..] == sep + last;
    }
  }

  /** `t` occurs in `a + t + b` right after `a`. */
  lemma OccursAfter(a: string, t: string, b: string)
    ensures OccursAt(a + t + b, t, |a|)
  {
    assert (a + t + b)[|a|..|a| + |t|] == t;
  }

  /** A one-character string occurs in `s` exactly when the character does. */
  lemma ContainsChar(s: string, c: char)
    ensures Contains(s, [c]) <==> c in s
  {
    if c in s {
      var i :| 0 <= i < |s| && s[i] == c;
      assert OccursAt(s, [c], i) by { assert s[i..i + 1] == [c]; }
    }
    if Contains(s, [c]) {
      var i :| 0 <= i <= |s| && OccursAt(s, [c], i);
      assert s[i..i + 1][0] == s[i];
    }
  }

  /** No proper suffix of `sep` is also a prefix of it: two occurrences of `sep` cannot overlap. */
  predicate NoSelfOverlap(sep: string) {
    forall d :: 0 < d < |sep| ==> sep[d..] != sep[..|sep| - d]
  }

  /**
   * For a separator whose occurrences cannot overlap, the last piece of
   * `p + sep + x` is `x` whenever `x` holds no separator, whatever `p` is.
   */
  lemma LastPieceAfter(p: string, sep: string, x: string)
    requires |sep| > 0 && NoSelfOverlap(sep)
    requires !Contains(x, sep)
    ensures LastPiece(p + sep + x, sep) == x
  {
    var s := p + sep + x;
    var last := LastPiece(s, sep);
    assert OccursAt(s, sep, |p|) by { assert s[|p|..|p| + |sep|] == sep; }
    LastPieceAfterLastSeparator(s, sep);
    var k := |s| - |last| - |sep|;
    assert s[k..] == sep + last;
    assert s[k..k + |sep|] == sep by { assert s[k..k + |sep|] == s[k..][..|sep|]; }
    if k < |p| {
      OccurrencesApart(s, sep, k, |p|);
      var j := |p| - k - |sep|;
      assert last == s[k + |sep|..];
      assert last[j..j + |sep|] == s[|p|..|p| + |sep|];
      assert OccursAt(last, sep, j);
    } else if k > |p| {
      OccurrencesApart(s, sep, |p|, k);
      var j := k - |p| - |sep|;
      assert x == s[|p| + |sep|..];
      assert x[j..j + |sep|] == s[k..k + |sep|];
      assert OccursAt(x, sep, j);
    }
    assert last == s[k + |sep|..];
  }

  /** Two distinct occurrences of a separator that cannot overlap itself lie at least its length apart. */
  lemma OccurrencesApart(s: string, sep: string, i: int, j: int)
    requires NoSelfOverlap(sep)
    requires OccursAt(s, sep, i) && OccursAt(s, sep, j) && i < j
    ensures i + |sep| <= j
  {
    OverlapIsBorder(s, sep, i, j);
  }

  /** Two overlapping occurrences of `sep` make a proper suffix of it equal to a prefix of it. */
  lemma OverlapIsBorder(s: string, sep: string, i: int, j: int)
    ensures OccursAt(s, sep, i) && OccursAt(s, sep, j) && i < j < i + |sep| ==>
              sep[j - i..] == sep[..|sep| - (j - i)]
  {
    if OccursAt(s, sep, i) && OccursAt(s, sep, j) && i < j < i + |sep| {
      assert sep[j - i..] == s[j..i + |sep|];
      assert sep[..|sep| - (j - i)] == s[j..i + |sep|];
    }
  }

  /** Splitting a string that holds no separator character gives the string alone. */
  lemma {:induction false} SplitWithoutSeparator(s: string, c: char)
    requires c !in s
    ensures Split(s, [c]) == [s]
  {
    if |s| >= 1 {
      assert s[..1] != [c] by { assert s[..1][0] == s[0]; }
      SplitWithoutSeparator(s[1..], c);
      assert [s[0]] + s[1..] == s;
    }
  }

  /** A piece free of the separator character is cut off whole. */
  lemma {:induction false} SplitAfterPiece(x: string, y: string, c: char)
    requires c !in x
    ensures Split(x + [c] + y, [c]) == [x] + Split(y, [c])
  {
    var s := x + [c] + y;
    if x == [] {
      assert s[..1] == [c];
      assert s[1..] == y;
    } else {
      assert s[..1] != [c] by { assert s[..1][0] == x[0]; }
      assert s[1..] == x[1..] + [c] + y;
      SplitAfterPiece(x[1..], y, c);
      assert [x[0]] + x[1..] == x;
    }
  }

  /**
   * Splitting the join of pieces that hold no separator character gives
   * back the pieces: `sep.join` and `split(sep)` are inverse.
   */
  lemma {:induction false} SplitJoin(parts: seq<string>, c: char)
    requires |parts| >= 1
    requires forall i :: 0 <= i < |parts| ==> c !in parts[i]
    ensures Split(Join(parts, [c]), [c]) == parts
    decreases |parts|
  {
    if |parts| == 1 {
      SplitWithoutSeparator(parts[0], c);
    } else {
      SplitJoin(parts[1..], c);
      SplitAfterPiece(parts[0], Join(parts[1..], [c]), c);
      assert [parts[0]] + parts[1..] == parts;
    }
  }

  // ---------------------------------------------------------------------
  // The word-character class
  // ---------------------------------------------------------------------

  /**
   * Replacing spaces by `_` and then dropping non-word characters keeps
   * every word character and turns every space into `_`: the result holds
   * as many copies of each character as this accounting says.
   */
  lemma {:induction false} SpacesBecomeUnderscores(s: string, c: char)
    ensures multiset(KeepWordChars(ReplaceChar(s, ' ', '_')))[c] ==
            (if IsWordChar(c) then multiset(s)[c] else 0) + (if c == '_' then multiset(s)[' '] else 0)
  {
    if s != [] {
      SpacesBecomeUnderscores(s[1..], c);
      assert s == [s[0]] + s[1..];
      assert ReplaceChar(s, ' ', '_') == [if s[0] == ' ' then '_' else s[0]] + ReplaceChar(s[1..], ' ', '_');
      var r := ReplaceChar(s, ' ', '_');
      assert r[1..] == ReplaceChar(s[1..], ' ', '_');
      var kept := KeepWordChars(r[1..]);
      var head := if IsWordChar(r[0]) then [r[0]] else [];
      assert KeepWordChars(r) == head + kept;
      assert multiset(KeepWordChars(r)) == multiset(head) + multiset(kept);
      assert multiset(s) == multiset{s[0]} + multiset(s[1..]);
    }
  }
}
