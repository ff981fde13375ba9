/** The JavaScript string operations the pipeline relies on: `trim`,
    `startsWith`, `includes`, `indexOf`, `split` and `join`, over `seq<char>`. */
module Strings {
  import opened Wrappers

  predicate IsDigit(c: char) {
    '0' <= c <= '9'
  }

  /** The characters `String.prototype.trim` removes: ECMAScript WhiteSpace and
      LineTerminator code points. */
  predicate IsWhitespace(c: char) {
    || c == ' ' || c == '\t' || c == '\n' || c == '\r'
    || c == '\U{B}' || c == '\U{C}' || c == '\U{A0}' || c == '\U{FEFF}'
    || c == '\U{1680}' || ('\U{2000}' <= c <= '\U{200A}')
    || c == '\U{2028}' || c == '\U{2029}' || c == '\U{202F}'
    || c == '\U{205F}' || c == '\U{3000}'
  }

  /** `s` without its maximal leading run of whitespace. */
  function TrimStart(s: string): (r: string)
    ensures |r| <= |s| && r == s[|s| - |r|..]
    ensures forall k :: 0 <= k < |s| - |r| ==> IsWhitespace(s[k])
    ensures r == [] || !IsWhitespace(r[0])
    decreases |s|
  {
    if |s| > 0 && IsWhitespace(s[0]) then TrimStart(s[1..]) else s
  }

  /** `s` without its maximal trailing run of whitespace. */
  function TrimEnd(s: string): (r: string)
    ensures |r| <= |s| && r == s[..|r|]
    ensures forall k :: |r| <= k < |s| ==> IsWhitespace(s[k])
    ensures r == [] || !IsWhitespace(r[|r| - 1])
    decreases |s|
  {
    if |s| > 0 && IsWhitespace(s[|s| - 1]) then TrimEnd(s[..|s| - 1]) else s
  }

  /** The length of the leading whitespace run of `s`. */
  function LeadingWhitespace(s: string): nat {
    |s| - |TrimStart(s)|
  }

  /** `String.prototype.trim`: the infix of `s` left after removing whitespace
      at both ends. */
  function Trim(s: string): (r: string)
    ensures r == [] || (!IsWhitespace(r[0]) && !IsWhitespace(r[|r| - 1]))
    ensures LeadingWhitespace(s) + |r| <= |s|
    ensures r == s[LeadingWhitespace(s)..LeadingWhitespace(s) + |r|]
    ensures forall k :: 0 <= k < LeadingWhitespace(s) ==> IsWhitespace(s[k])
    ensures forall k :: LeadingWhitespace(s) + |r| <= k < |s| ==> IsWhitespace(s[k])
  {
    var t := TrimStart(s);
    var r := TrimEnd(t);
    var i := |s| - |t|;
    assert r == s[i..i + |r|];
    r
  }

  predicate StartsWith(s: string, prefix: string) {
    |prefix| <= |s| && s[..|prefix|] == prefix
  }

  /** `pat` occurs in `s` starting at index `i`. */
  predicate IsOccurrence(s: string, pat: string, i: nat) {
    i + |pat| <= |s| && s[i..i + |pat|] == pat
  }

  function IndexFrom(s: string, pat: string, k: nat): (r: Option<nat>)
    requires k <= |s|
    ensures r.Some? ==> k <= r.value && IsOccurrence(s, pat, r.value)
    decreases |s| - k
  {
    if IsOccurrence(s, pat, k) then Some(k)
    else if k == |s| then None
    else IndexFrom(s, pat, k + 1)
  }

  /** The search from `k` finds the first occurrence at or after `k`. */
  lemma {:induction false} IndexFromFirst(s: string, pat: string, k: nat)
    requires k <= |s|
    ensures IndexFrom(s, pat, k).Some? ==> forall j :: k <= j < IndexFrom(s, pat, k).value ==> !IsOccurrence(s, pat, j)
    ensures IndexFrom(s, pat, k).None? ==> forall j :: k <= j <= |s| ==> !IsOccurrence(s, pat, j)
    decreases |s| - k
  {
    if !IsOccurrence(s, pat, k) && k < |s| {
      IndexFromFirst(s, pat, k + 1);
    }
  }

  /** `String.prototype.indexOf`: the first occurrence of `pat` in `s`, if any. */
  function IndexOf(s: string, pat: string): (r: Option<nat>)
    ensures r.Some? ==> IsOccurrence(s, pat, r.value)
  {
    IndexFrom(s, pat, 0)
  }

  /** `indexOf` finds the first occurrence, and none means there is none. */
  lemma IndexOfFirst(s: string, pat: string)
    ensures IndexOf(s, pat).Some? ==> forall j :: 0 <= j < IndexOf(s, pat).value ==> !IsOccurrence(s, pat, j)
    ensures IndexOf(s, pat).None? ==> forall j :: 0 <= j <= |s| ==> !IsOccurrence(s, pat, j)
  {
    IndexFromFirst(s, pat, 0);
  }

  /** `String.prototype.includes`. */
  predicate Contains(s: string, pat: string) {
    IndexOf(s, pat).Some?
  }

  /** An occurrence in a suffix starts a suffix of the whole string. */
  lemma OccurrenceInSuffix(s: string, pat: string, k: nat, j: nat)
    requires k <= |s|
    requires IsOccurrence(s[k..], pat, j)
    ensures StartsWith(s[k + j..], pat)
  {
    assert s[k + j..][..|pat|] == s[k..][j..j + |pat|];
  }

  /** An occurrence inside a prefix is an occurrence in the whole string. */
  lemma OccurrenceInPrefix(s: string, pat: string, n: nat, j: nat)
    requires n <= |s|
    requires IsOccurrence(s[..n], pat, j)
    ensures IsOccurrence(s, pat, j)
  {
    assert s[..n][j..j + |pat|] == s[j..j + |pat|];
  }

  /** `String.prototype.split` with a non-empty separator: the pieces between
      successive leftmost, non-overlapping occurrences of `sep`. */
  function Split(s: string, sep: string): (parts: seq<string>)
    requires |sep| > 0
    ensures |parts| >= 1
    decreases |s|
  {
    match IndexOf(s, sep)
    case None => [s]
    case Some(i) => [s[..i]] + Split(s[i + |sep|..], sep)
  }

  /** Where the separator occurs, the first piece is the text before it and
      the rest is the split of the text after it. */
  lemma SplitAtFirst(s: string, sep: string)
    requires |sep| > 0 && Contains(s, sep)
    ensures Split(s, sep) == [s[..IndexOf(s, sep).value]] + Split(s[IndexOf(s, sep).value + |sep|..], sep)
  {
  }

  /** The first two pieces of a split: the text up to the first separator,
      then the text up to the next one or the end. */
  lemma SplitSecond(s: string, sep: string)
    requires |sep| > 0 && Contains(s, sep)
    ensures var i := IndexOf(s, sep).value;
            var rest := s[i + |sep|..];
            && |Split(s, sep)| >= 2 && Split(s, sep)[0] == s[..i]
            && Split(s, sep)[1] == match IndexOf(rest, sep)
                                   case Some(j) => rest[..j]
                                   case None => rest
  {
    var i := IndexOf(s, sep).value;
    var rest := s[i + |sep|..];
    SplitAtFirst(s, sep);
    assert Split(s, sep)[1] == Split(rest, sep)[0];
    if IndexOf(rest, sep).Some? {
      SplitAtFirst(rest, sep);
    }
  }

  /** A string that has `sep` at `i` followed by `v` starts with the text
      before `i`, then `sep`, then `v`. */
  lemma PieceLayout(l: string, i: nat, sep: string, v: string)
    requires i + |sep| + |v| <= |l| && l[i..i + |sep|] == sep && l[i + |sep|..i + |sep| + |v|] == v
    ensures StartsWith(l, l[..i] + sep + v)
  {
    assert l[..i + |sep| + |v|] == l[..i] + l[i..i + |sep|] + l[i + |sep|..i + |sep| + |v|];
  }

  /** `c` occurs as a one-character pattern exactly when it is in the string. */
  lemma ContainsChar(s: string, c: char)
    ensures Contains(s, [c]) <==> c in s
  {
    match IndexOf(s, [c])
    case Some(i) =>
      CharOccurrence(s, c, i);
    case None =>
      IndexOfFirst(s, [c]);
      forall j | 0 <= j < |s| ensures s[j] != c {
        CharOccurrence(s, c, j);
      }
  }

  /** No piece of a split holds the separator. */
  lemma {:induction false} SplitPieces(s: string, sep: string)
    requires |sep| > 0
    ensures forall k :: 0 <= k < |Split(s, sep)| ==> !Contains(Split(s, sep)[k], sep)
    decreases |s|
  {
    match IndexOf(s, sep)
    case None =>
    case Some(i) =>
      var head := s[..i];
      IndexOfFirst(s, sep);
      assert !Contains(head, sep) by {
        forall j | 0 <= j <= |head| ensures !IsOccurrence(head, sep, j) {
          if IsOccurrence(head, sep, j) {
            OccurrenceInPrefix(s, sep, i, j);
          }
        }
      }
      SplitPieces(s[i + |sep|..], sep);
      var parts := Split(s, sep);
      assert parts == [head] + Split(s[i + |sep|..], sep);
      forall k | 0 < k < |parts| ensures !Contains(parts[k], sep) {
        assert parts[k] == Split(s[i + |sep|..], sep)[k - 1];
      }
  }

  /** `Array.prototype.join`. */
  function Join(parts: seq<string>, sep: string): string
    decreases |parts|
  {
    if |parts| == 0 then []
    else if |parts| == 1 then parts[0]
    else parts[0] + sep + Join(parts[1..], sep)
  }

  /** Joining the pieces of a split with the same separator restores the string. */
  lemma {:induction false} JoinSplit(s: string, sep: string)
    requires |sep| > 0
    ensures Join(Split(s, sep), sep) == s
    decreases |s|
  {
    var found := IndexOf(s, sep);
    if found.Some? {
      var i := found.value;
      var rest := s[i + |sep|..];
      var tail := Split(rest, sep);
      JoinSplit(rest, sep);
      assert Split(s, sep) == [s[..i]] + tail;
      assert Join([s[..i]] + tail, sep) == s[..i] + sep + Join(tail, sep);
      assert s == s[..i] + sep + rest;
    }
  }

  /** A one-character pattern occurs exactly where that character is. */
  lemma CharOccurrence(s: string, c: char, j: nat)
    ensures IsOccurrence(s, [c], j) <==> j < |s| && s[j] == c
  {
    if j < |s| {
      assert s[j..j + 1] == [s[j]];
    }
  }

  /** A string without an occurrence of the one-character pattern `[c]` does
      not hold `c`. */
  lemma NotContainsChar(s: string, c: char)
    requires !Contains(s, [c])
    ensures c !in s
  {
    ContainsChar(s, c);
  }

  /** With a one-character separator absent from every piece, splitting a join
      gives the pieces back. */
  lemma {:induction false} SplitJoin(parts: seq<string>, c: char)
    requires |parts| >= 1
    requires forall k :: 0 <= k < |parts| ==> c !in parts[k]
    ensures Split(Join(parts, [c]), [c]) == parts
    decreases |parts|
  {
    var s := Join(parts, [c]);
    var p := parts[0];
    if |parts| == 1 {
      forall j | 0 <= j <= |p| ensures !IsOccurrence(p, [c], j) {
        CharOccurrence(p, c, j);
      }
    } else {
      var rest := Join(parts[1..], [c]);
      assert s == p + [c] + rest;
      assert IsOccurrence(s, [c], |p|) by {
        assert s[|p|..|p| + 1] == [c];
      }
      forall j | 0 <= j < |p| ensures !IsOccurrence(s, [c], j) {
        CharOccurrence(s, c, j);
      }
      IndexOfFirst(s, [c]);
      assert IndexOf(s, [c]) == Some(|p|);
      assert s[..|p|] == p;
      assert s[|p| + 1..] == rest;
      SplitJoin(parts[1..], c);
      assert Split(s, [c]) == [p] + Split(rest, [c]);
      assert parts == [p] + parts[1..];
    }
  }
}
