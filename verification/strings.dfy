/** String helpers with the behaviour of the Rust `str` methods the translator uses. */
module Strings {
  import opened Wrappers

  /** Rust's `char::is_whitespace`: the characters with the Unicode White_Space property. */
  predicate IsWhitespace(c: char) {
    || ('\t' <= c <= '\r')
    || c == ' '
    || c == '\U{85}'
    || c == '\U{A0}'
    || c == '\U{1680}'
    || ('\U{2000}' <= c <= '\U{200A}')
    || c == '\U{2028}'
    || c == '\U{2029}'
    || c == '\U{202F}'
    || c == '\U{205F}'
    || c == '\U{3000}'
  }

  predicate AllWhitespace(s: string) {
    forall k :: 0 <= k < |s| ==> IsWhitespace(s[k])
  }

  lemma WhitespaceAppend(s: string, c: char)
    requires AllWhitespace(s) && IsWhitespace(c)
    ensures AllWhitespace(s + [c])
  {
    assert forall k :: 0 <= k < |s| ==> (s + [c])[k] == s[k];
  }

  /** `str::trim_start`: drops the longest all-whitespace prefix. */
  function TrimStart(s: string): (r: string)
    ensures |r| <= |s|
    ensures r == [] || !IsWhitespace(r[0])
    ensures AllWhitespace(s[..|s| - |r|])
  {
    if |s| > 0 && IsWhitespace(s[0]) then
      var r := TrimStart(s[1..]);
      assert s[1..][..|s| - 1 - |r|] == s[1..|s| - |r|];
      r
    else s
  }

  /** What `trim_start` keeps is a suffix of its input. */
  lemma {:induction false} TrimStartSuffix(s: string)
    decreases |s|
    ensures TrimStart(s) == s[|s| - |TrimStart(s)|..]
  {
    if |s| > 0 && IsWhitespace(s[0]) {
      TrimStartSuffix(s[1..]);
    }
  }

  /** `str::trim_end`: drops the longest all-whitespace suffix. */
  function TrimEnd(s: string): (r: string)
    ensures r <= s
    ensures r == [] || !IsWhitespace(r[|r| - 1])
    ensures AllWhitespace(s[|r|..])
  {
    if |s| > 0 && IsWhitespace(s[|s| - 1]) then
      var t := s[..|s| - 1];
      var r := TrimEnd(t);
      assert r == t[..|r|] == s[..|r|];
      assert s[|r|..] == t[|r|..] + [s[|s| - 1]];
      WhitespaceAppend(t[|r|..], s[|s| - 1]);
      r
    else s
  }

  /** `str::trim`: the text between the whitespace at either end. */
  function Trim(s: string): (r: string)
    ensures r == [] || (!IsWhitespace(r[0]) && !IsWhitespace(r[|r| - 1]))
  {
    TrimEnd(TrimStart(s))
  }

  /** Where the trimmed text sits: all that is cut off on either side is whitespace. */
  lemma TrimBounds(s: string) returns (i: nat, j: nat)
    ensures i <= j <= |s| && Trim(s) == s[i..j]
    ensures AllWhitespace(s[..i]) && AllWhitespace(s[j..])
  {
    var t := TrimStart(s);
    var r := TrimEnd(t);
    i := |s| - |t|;
    j := i + |r|;
    TrimStartSuffix(s);
    assert t == s[i..];
    assert r == s[i..j];
    assert s[j..] == t[|r|..];
  }

  /** A string trims to nothing exactly when every character is whitespace. */
  lemma TrimEmptyIffBlank(s: string)
    ensures Trim(s) == [] <==> AllWhitespace(s)
  {
    var i, j := TrimBounds(s);
    if Trim(s) == [] {
      assert i == j;
      forall k | 0 <= k < |s| ensures IsWhitespace(s[k]) {
        if k < i { assert s[k] == s[..i][k]; } else { assert s[k] == s[j..][k - j]; }
      }
    } else if AllWhitespace(s) {
      assert false;
    }
  }

  /** Trimming a string with no whitespace at either end changes nothing. */
  lemma TrimNoop(s: string)
    requires s == [] || (!IsWhitespace(s[0]) && !IsWhitespace(s[|s| - 1]))
    ensures Trim(s) == s
  {
  }

  predicate OccursAt(s: string, pat: string, k: int) {
    0 <= k && k + |pat| <= |s| && s[k..k + |pat|] == pat
  }

  /** `str::find`: the index of the first occurrence of `pat` at or after `from`. */
  function FindFrom(s: string, pat: string, from: nat): (r: Option<nat>)
    requires from <= |s|
    decreases |s| - from
    ensures r.Some? ==> from <= r.value && r.value + |pat| <= |s|
  {
    if OccursAt(s, pat, from) then Some(from)
    else if from == |s| then None
    else FindFrom(s, pat, from + 1)
  }

  /** The search finds an occurrence with none before it, or reports that there is none. */
  lemma {:induction false} FindFromFirst(s: string, pat: string, from: nat)
    requires from <= |s|
    decreases |s| - from
    ensures var r := FindFrom(s, pat, from);
      && (r.Some? ==> from <= r.value && OccursAt(s, pat, r.value))
      && (r.Some? ==> forall k :: from <= k < r.value ==> !OccursAt(s, pat, k))
      && (r.None? ==> forall k :: from <= k <= |s| ==> !OccursAt(s, pat, k))
  {
    if !OccursAt(s, pat, from) && from < |s| {
      FindFromFirst(s, pat, from + 1);
    }
  }

  function Find(s: string, pat: string): (r: Option<nat>)
    ensures r.Some? ==> r.value + |pat| <= |s|
  {
    FindFrom(s, pat, 0)
  }

  /** `find` gives the first occurrence of `pat`, and `None` exactly when there is none. */
  lemma FindFirst(s: string, pat: string)
    ensures Find(s, pat).Some? ==>
      OccursAt(s, pat, Find(s, pat).value) && forall k :: 0 <= k < Find(s, pat).value ==> !OccursAt(s, pat, k)
    ensures Find(s, pat).None? <==> forall k :: 0 <= k <= |s| ==> !OccursAt(s, pat, k)
  {
    FindFromFirst(s, pat, 0);
  }

  /** The pieces of `pieces` glued back together with `sep` between neighbours. */
  function Join(pieces: seq<string>, sep: char): string
  {
    if |pieces| == 0 then []
    else if |pieces| == 1 then pieces[0]
    else pieces[0] + [sep] + Join(pieces[1..], sep)
  }

  /** The index of the first `c` in `s`, if any. */
  function IndexOf(s: string, c: char): (r: Option<nat>)
    ensures r.Some? ==> r.value < |s| && s[r.value] == c && c !in s[..r.value]
    ensures r.None? <==> c !in s
  {
    if |s| == 0 then None
    else if s[0] == c then Some(0)
    else match IndexOf(s[1..], c)
      case None => None
      case Some(i) =>
        assert s[..i + 1] == [s[0]] + s[1..][..i];
        Some(i + 1)
  }

  /** The first occurrence is the one with no earlier occurrence. */
  lemma IndexOfFirst(s: string, c: char, i: nat)
    requires i < |s| && s[i] == c && c !in s[..i]
    ensures IndexOf(s, c) == Some(i)
  {
  }

  /** `str::split` on a one-character pattern: the maximal `sep`-free pieces, empty ones included. */
  function Split(s: string, sep: char): (r: seq<string>)
    decreases |s|
    ensures |r| >= 1
    ensures forall k :: 0 <= k < |r| ==> sep !in r[k]
    ensures |r| == 1 <==> sep !in s
  {
    match IndexOf(s, sep)
    case None => [s]
    case Some(i) =>
      var rest := Split(s[i + 1..], sep);
      assert s == s[..i] + [sep] + s[i + 1..];
      [s[..i]] + rest
  }

  /** A sequence is the part before index `i`, the element there, and the part after. */
  lemma CutAround<T>(s: seq<T>, i: nat)
    requires i < |s|
    ensures s == s[..i] + [s[i]] + s[i + 1..]
  {
  }

  /** The three parts of `a + [x] + b` can be cut back out of it. */
  lemma GlueParts<T>(a: seq<T>, x: T, b: seq<T>)
    ensures (a + [x] + b)[..|a|] == a && (a + [x] + b)[|a|] == x && (a + [x] + b)[|a| + 1..] == b
  {
  }

  /** Joining the pieces of a split gives back the string. */
  lemma {:induction false} JoinSplit(s: string, sep: char)
    decreases |s|
    ensures Join(Split(s, sep), sep) == s
  {
    match IndexOf(s, sep)
    case None =>
    case Some(i) =>
      var rest := Split(s[i + 1..], sep);
      var pieces := [s[..i]] + rest;
      assert Split(s, sep) == pieces;
      assert pieces[0] == s[..i] && pieces[1..] == rest;
      assert Join(pieces, sep) == s[..i] + [sep] + Join(rest, sep);
      JoinSplit(s[i + 1..], sep);
      CutAround(s, i);
  }

  /** Splitting at the first separator: the piece before it, then the split of the rest. */
  lemma SplitAtFirst(s: string, sep: char, i: nat)
    requires i < |s| && s[i] == sep && sep !in s[..i]
    ensures Split(s, sep) == [s[..i]] + Split(s[i + 1..], sep)
  {
    IndexOfFirst(s, sep, i);
  }

  /** Splitting undoes joining, as long as no piece contains the separator. */
  lemma {:induction false} SplitJoin(pieces: seq<string>, sep: char)
    requires |pieces| >= 1
    requires forall k :: 0 <= k < |pieces| ==> sep !in pieces[k]
    ensures Split(Join(pieces, sep), sep) == pieces
  {
    if |pieces| == 1 {
      assert IndexOf(pieces[0], sep).None?;
    } else {
      var rest := pieces[1..];
      var s := Join(pieces, sep);
      var i := |pieces[0]|;
      assert s == pieces[0] + [sep] + Join(rest, sep);
      GlueParts(pieces[0], sep, Join(rest, sep));
      SplitAtFirst(s, sep, i);
      SplitJoin(rest, sep);
      assert pieces == [pieces[0]] + rest;
    }
  }
}
