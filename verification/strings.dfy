/** The few functions of Go's `strings` package the service relies on, over `seq<char>`:
    Index, Contains, Split, HasPrefix and HasSuffix, with the facts the rest of the model
    needs about them. */
module GoStrings {

  datatype Option<+T> = None | Some(value: T)

  /** strings.HasPrefix */
  predicate HasPrefix(s: string, prefix: string) {
    |prefix| <= |s| && s[..|prefix|] == prefix
  }

  /** strings.HasSuffix */
  predicate HasSuffix(s: string, suffix: string) {
    |suffix| <= |s| && s[|s| - |suffix|..] == suffix
  }

  /** `t` occurs in `s` starting at index `i`. */
  predicate OccursAt(s: string, t: string, i: int) {
    0 <= i && i + |t| <= |s| && s[i..i + |t|] == t
  }

  /** The first occurrence of `t` in `s` at or after index `i`. */
  function IndexFrom(s: string, t: string, i: nat): (r: Option<nat>)
    requires i <= |s|
    ensures r.Some? ==> i <= r.value && OccursAt(s, t, r.value)
    ensures r.Some? ==> forall j :: i <= j < r.value ==> !OccursAt(s, t, j)
    ensures r.None? ==> forall j :: i <= j ==> !OccursAt(s, t, j)
    decreases |s| - i
  {
    if OccursAt(s, t, i) then Some(i)
    else if i == |s| then None
    else IndexFrom(s, t, i + 1)
  }

  /** strings.Index, with None for Go's -1. */
  function Index(s: string, t: string): Option<nat> {
    IndexFrom(s, t, 0)
  }

  /** strings.Contains: Index(s, t) >= 0. */
  function Contains(s: string, t: string): (b: bool)
    ensures b <==> exists j :: OccursAt(s, t, j)
  {
    Index(s, t).Some?
  }

  /** strings.Split for a non-empty separator: the pieces between the leftmost,
      non-overlapping occurrences of `sep`. */
  function Split(s: string, sep: string): (parts: seq<string>)
    requires sep != []
    ensures |parts| >= 1
    decreases |s|
  {
    match Index(s, sep)
    case None => [s]
    case Some(i) => [s[..i]] + Split(s[i + |sep|..], sep)
  }

  /** strings.Join, the inverse of Split. */
  function Join(parts: seq<string>, sep: string): string {
    if |parts| == 0 then ""
    else if |parts| == 1 then parts[0]
    else parts[0] + sep + Join(parts[1..], sep)
  }

  /** Go's `splitted[len(splitted)-1]`. */
  function Last(parts: seq<string>): string
    requires |parts| >= 1
  {
    parts[|parts| - 1]
  }

  /** Split cuts at the first separator and goes on with what follows it. */
  lemma SplitAt(s: string, sep: string, i: nat)
    requires sep != [] && Index(s, sep) == Some(i)
    ensures i + |sep| <= |s|
    ensures s == s[..i] + sep + s[i + |sep|..]
    ensures Split(s, sep) == [s[..i]] + Split(s[i + |sep|..], sep)
  {
    assert s[i..i + |sep|] == sep;
    assert s == s[..i] + s[i..i + |sep|] + s[i + |sep|..];
  }

  /** Joining the pieces of a split with the same separator gives back the input. */
  lemma {:induction false} JoinSplit(s: string, sep: string)
    requires sep != []
    ensures Join(Split(s, sep), sep) == s
    decreases |s|
  {
    match Index(s, sep)
    case None =>
    case Some(i) =>
      var rest := s[i + |sep|..];
      SplitAt(s, sep, i);
      JoinSplit(rest, sep);
      var parts := Split(s, sep);
      assert parts[1..] == Split(rest, sep);
      assert Join(parts, sep) == s[..i] + sep + Join(Split(rest, sep), sep);
  }

  /** Text before the first occurrence of `t` does not contain `t`. */
  lemma NothingBeforeIndex(s: string, t: string, i: nat)
    requires t != [] && Index(s, t) == Some(i)
    ensures i <= |s| && !Contains(s[..i], t)
  {
    forall j | 0 <= j <= i
      ensures !OccursAt(s[..i], t, j)
    {
      if j + |t| <= i {
        assert s[..i][j..j + |t|] == s[j..j + |t|];
        assert j < i && !OccursAt(s, t, j);
      }
    }
  }

  /** A suffix of a string that does not contain `t` does not contain it either. */
  lemma SuffixKeepsAbsence(s: string, x: string, t: string)
    requires HasSuffix(s, x) && !Contains(s, t)
    ensures !Contains(x, t)
  {
    var d := |s| - |x|;
    assert x == s[d..];
    forall j | OccursAt(x, t, j)
      ensures OccursAt(s, t, d + j)
    {
      assert x[j..j + |t|] == s[d + j..d + j + |t|];
    }
  }

  /** A suffix of a suffix of `s` is a suffix of `s`. */
  lemma SuffixOfSuffix(s: string, x: string, y: string)
    requires HasSuffix(s, x) && HasSuffix(x, y)
    ensures HasSuffix(s, y)
  {
    assert x == s[|s| - |x|..];
    assert x[|x| - |y|..] == s[|s| - |y|..];
  }

  /** The last piece of a split is the text after the last separator that Split cut at:
      it ends the input, contains no separator, is preceded by a separator when the input
      has one, and is the whole input when it has none. */
  lemma {:induction false} LastPiece(s: string, sep: string)
    requires sep != []
    ensures HasSuffix(s, Last(Split(s, sep)))
    ensures !Contains(Last(Split(s, sep)), sep)
    ensures Contains(s, sep) ==> HasSuffix(s, sep + Last(Split(s, sep)))
    ensures !Contains(s, sep) ==> Last(Split(s, sep)) == s
    decreases |s|
  {
    match Index(s, sep)
    case None =>
      assert s[|s| - |s|..] == s;
    case Some(i) =>
      LastPiece(s[i + |sep|..], sep);
      LastPieceStep(s, sep, i);
  }

  /** Induction step of LastPiece: cutting at the first separator keeps the last piece. */
  lemma LastPieceStep(s: string, sep: string, i: nat)
    requires sep != [] && Index(s, sep) == Some(i)
    requires var rest := s[i + |sep|..]; var r := Last(Split(rest, sep));
      HasSuffix(rest, r) && (Contains(rest, sep) ==> HasSuffix(rest, sep + r)) &&
      (!Contains(rest, sep) ==> r == rest)
    ensures Last(Split(s, sep)) == Last(Split(s[i + |sep|..], sep))
    ensures HasSuffix(s, Last(Split(s, sep))) && HasSuffix(s, sep + Last(Split(s, sep)))
  {
    var rest := s[i + |sep|..];
    var r := Last(Split(rest, sep));
    LastAfterCut(s, sep, i);
    SuffixesAfterCut(s, sep, i);
    if Contains(rest, sep) {
      SuffixOfSuffix(s, rest, sep + r);
    }
    SuffixOfSuffix(s, rest, r);
  }

  /** Cutting at the first separator keeps the last piece. */
  lemma LastAfterCut(s: string, sep: string, i: nat)
    requires sep != [] && Index(s, sep) == Some(i)
    ensures Last(Split(s, sep)) == Last(Split(s[i + |sep|..], sep))
  {
    SplitAt(s, sep, i);
    LastOfCons(s[..i], Split(s[i + |sep|..], sep));
  }

  /** What follows an occurrence of `sep`, with and without it, ends the string. */
  lemma SuffixesAfterCut(s: string, sep: string, i: nat)
    requires OccursAt(s, sep, i)
    ensures HasSuffix(s, s[i + |sep|..]) && HasSuffix(s, sep + s[i + |sep|..])
  {
    var rest := s[i + |sep|..];
    assert s[i..] == s[i..i + |sep|] + rest;
    assert s[|s| - |sep + rest|..] == s[i..];
  }

  /** Putting a piece in front does not change the last one. */
  lemma LastOfCons(x: string, parts: seq<string>)
    requires |parts| >= 1
    ensures Last([x] + parts) == Last(parts)
  {
  }

  /** The second part of a concatenation is a suffix of it. */
  lemma SuffixOfConcat(a: string, b: string)
    ensures HasSuffix(a + b, b)
  {
    assert (a + b)[|a + b| - |b|..] == b;
  }

  /** The first piece of a split is the text before the first separator, and the
      remaining pieces are the split of what follows that separator. */
  lemma FirstPiece(s: string, sep: string)
    requires sep != []
    ensures !Contains(Split(s, sep)[0], sep)
    ensures |Split(s, sep)| == 1 <==> !Contains(s, sep)
    ensures |Split(s, sep)| == 1 ==> Split(s, sep)[0] == s
    ensures |Split(s, sep)| >= 2 ==>
              HasPrefix(s, Split(s, sep)[0] + sep) &&
              Split(s, sep)[1..] == Split(s[|Split(s, sep)[0]| + |sep|..], sep)
  {
    match Index(s, sep)
    case None =>
    case Some(i) =>
      NothingBeforeIndex(s, sep, i);
      SplitAt(s, sep, i);
      assert Split(s, sep)[0] == s[..i];
      assert s[..i + |sep|] == s[..i] + sep;
  }

  /** Index of a one-character separator right after a separator-free prefix. */
  lemma IndexAfterFreePrefix(s: string, a: string, c: char)
    requires HasPrefix(s, a + [c]) && !Contains(a, [c])
    ensures Index(s, [c]) == Some(|a|)
  {
    assert OccursAt(s, [c], |a|) by {
      assert s[..|a| + 1] == a + [c];
      assert s[|a|..|a| + 1] == (a + [c])[|a|..];
    }
    forall j | 0 <= j < |a|
      ensures !OccursAt(s, [c], j)
    {
      if OccursAt(s, [c], j) {
        assert s[..|a| + 1] == a + [c];
        assert a[j..j + 1] == s[j..j + 1];
        assert OccursAt(a, [c], j);
      }
    }
    var r := Index(s, [c]);
    assert r.Some? && r.value <= |a|;
  }

  /** A string without the separator's first character does not contain the separator. */
  lemma AbsentFirstChar(s: string, t: string)
    requires t != [] && t[0] !in s
    ensures !Contains(s, t)
  {
    forall j | 0 <= j <= |s|
      ensures !OccursAt(s, t, j)
    {
      if j + |t| <= |s| {
        assert s[j..j + |t|][0] == s[j];
        assert s[j] in s;
      }
    }
  }

  /** The converse for one character: a string that does not contain `[c]` has no `c`. */
  lemma NotContainedChar(s: string, c: char)
    requires !Contains(s, [c])
    ensures c !in s
  {
    forall i | 0 <= i < |s|
      ensures s[i] != c
    {
      assert !OccursAt(s, [c], i);
      assert s[i..i + 1] == [s[i]];
    }
  }

  /** For a separator of one character, or of two different ones, the last piece is the
      only suffix that follows a separator and contains none. */
  lemma LastPieceUnique(s: string, sep: string, b: string)
    requires |sep| == 1 || (|sep| == 2 && sep[0] != sep[1])
    requires HasSuffix(s, sep + b) && !Contains(b, sep)
    ensures Last(Split(s, sep)) == b
  {
    LastPiece(s, sep);
    var r := Last(Split(s, sep));
    assert Contains(s, sep) by {
      assert s[|s| - |sep + b|..] == sep + b;
      assert s[|s| - |b| - |sep|..|s| - |b|] == sep;
      assert OccursAt(s, sep, |s| - |b| - |sep|);
    }
    Shorter(s, sep, r, b);
    Shorter(s, sep, b, r);
    assert s[|s| - |r|..] == r && s[|s| - |b|..] == b;
  }

  /** Helper of LastPieceUnique: of two separator-free suffixes that each follow a
      separator, neither is shorter than the other. */
  lemma Shorter(s: string, sep: string, r: string, b: string)
    requires |sep| == 1 || (|sep| == 2 && sep[0] != sep[1])
    requires HasSuffix(s, sep + r) && HasSuffix(s, sep + b) && !Contains(b, sep)
    ensures |b| <= |r|
  {
    var n := |s|;
    assert s[n - |sep + r|..] == sep + r;
    assert s[n - |sep + b|..] == sep + b;
    assert b == s[n - |b|..];
    assert |r| + |sep| <= |b| ==>
      var j := |b| - |r| - |sep|;
      s[n - |r| - |sep|..n - |r|] == (sep + r)[..|sep|] == sep &&
      b[j..j + |sep|] == s[n - |r| - |sep|..n - |r|] &&
      OccursAt(b, sep, j);
  }
}
