/**
 * The Python string operations the bot relies on, stated over `seq<char>`:
 * `str.isspace`, `str.strip()`, `str.split()`, `str.split(sep)[1]`,
 * `str.startswith` and the `in` operator on strings.
 */
module Text {
  import opened Wrappers

  /** Python's `str.isspace()` for one character. */
  predicate IsSpace(c: char) {
    c == ' ' || ('\t' <= c <= '\r') || ('\U{1C}' <= c <= '\U{1F}') ||
    c == '\U{85}' || c == '\U{A0}' || c == '\U{1680}' ||
    ('\U{2000}' <= c <= '\U{200A}') || c == '\U{2028}' || c == '\U{2029}' ||
    c == '\U{202F}' || c == '\U{205F}' || c == '\U{3000}'
  }

  predicate AllSpace(s: string) {
    forall i :: 0 <= i < |s| ==> IsSpace(s[i])
  }

  /** A token of `str.split()`: non-empty and free of whitespace. */
  predicate IsWord(s: string) {
    s != [] && forall i :: 0 <= i < |s| ==> !IsSpace(s[i])
  }

  // ---------------------------------------------------------------- strip

  /** End of the run of whitespace starting at `i`. */
  function SpaceEnd(s: string, i: nat): (j: nat)
    requires i <= |s|
    ensures i <= j <= |s| && (j == |s| || !IsSpace(s[j]))
    ensures forall k :: i <= k < j ==> IsSpace(s[k])
    decreases |s| - i
  {
    if i < |s| && IsSpace(s[i]) then SpaceEnd(s, i + 1) else i
  }

  /** Start of the run of whitespace that ends at `hi`, not going below `lo`. */
  function SpaceStart(s: string, lo: nat, hi: nat): (j: nat)
    requires lo <= hi <= |s|
    ensures lo <= j <= hi && (j == lo || !IsSpace(s[j - 1]))
    ensures forall k :: j <= k < hi ==> IsSpace(s[k])
    decreases hi
  {
    if lo < hi && IsSpace(s[hi - 1]) then SpaceStart(s, lo, hi - 1) else hi
  }

  lemma {:induction false} SpaceEndAt(s: string, i: nat, j: nat)
    requires i <= j <= |s| && (j == |s| || !IsSpace(s[j]))
    requires forall k :: i <= k < j ==> IsSpace(s[k])
    ensures SpaceEnd(s, i) == j
    decreases j - i
  {
    if i < j { SpaceEndAt(s, i + 1, j); }
  }

  lemma {:induction false} SpaceStartAt(s: string, lo: nat, j: nat, hi: nat)
    requires lo <= j <= hi <= |s| && (j == lo || !IsSpace(s[j - 1]))
    requires forall k :: j <= k < hi ==> IsSpace(s[k])
    ensures SpaceStart(s, lo, hi) == j
    decreases hi - j
  {
    if j < hi { SpaceStartAt(s, lo, j, hi - 1); }
  }

  /** Python's `str.strip()`: the text left once leading and trailing whitespace is removed. */
  function Strip(s: string): (r: string)
    ensures r == [] || (!IsSpace(r[0]) && !IsSpace(r[|r| - 1]))
    ensures var a := SpaceEnd(s, 0);
      a + |r| <= |s| && (forall i :: 0 <= i < |r| ==> r[i] == s[a + i]) &&
      (forall i :: 0 <= i < a ==> IsSpace(s[i])) && (forall i :: a + |r| <= i < |s| ==> IsSpace(s[i]))
    ensures r == [] <==> AllSpace(s)
  {
    var a := SpaceEnd(s, 0);
    var b := SpaceStart(s, a, |s|);
    assert b == a ==> AllSpace(s);
    s[a..b]
  }

  /** `strip()` removes exactly the surrounding whitespace of text that has none at its ends. */
  lemma StripSurrounded(sp: string, t: string, sp2: string)
    requires AllSpace(sp) && AllSpace(sp2)
    requires t != [] && !IsSpace(t[0]) && !IsSpace(t[|t| - 1])
    ensures Strip(sp + t + sp2) == t
  {
    var x := sp + t + sp2;
    var a := |sp|;
    var b := |sp| + |t|;
    SpaceEndAt(x, 0, a);
    SpaceStartAt(x, a, b, |x|);
    assert x[a..b] == t;
  }

  // ---------------------------------------------------------------- split()

  /** End of the run of non-whitespace starting at `i`. */
  function WordEnd(s: string, i: nat): (j: nat)
    requires i <= |s|
    ensures i <= j <= |s| && (j == |s| || IsSpace(s[j]))
    ensures forall k :: i <= k < j ==> !IsSpace(s[k])
    decreases |s| - i
  {
    if i < |s| && !IsSpace(s[i]) then WordEnd(s, i + 1) else i
  }

  /** Python's `str.split()` with no argument: the maximal runs of non-whitespace, in order. */
  function SplitWs(s: string): (r: seq<string>)
    ensures forall k :: 0 <= k < |r| ==> IsWord(r[k])
    decreases |s|
  {
    if s == [] then []
    else if IsSpace(s[0]) then SplitWs(s[1..])
    else
      var j := WordEnd(s, 0);
      [s[..j]] + SplitWs(s[j..])
  }

  /**
   * Text laid out as `split()` reads it: before each word a run of whitespace
   * (possibly empty before the first word, non-empty between words).
   */
  function Interleave(seps: seq<string>, words: seq<string>): string
    requires |seps| == |words|
  {
    if words == [] then "" else seps[0] + words[0] + Interleave(seps[1..], words[1..])
  }

  predicate Separators(seps: seq<string>) {
    forall k :: 0 <= k < |seps| ==> AllSpace(seps[k]) && (k > 0 ==> seps[k] != [])
  }

  lemma {:induction false} WordEndAt(w: string, rest: string, i: nat)
    requires i <= |w| && forall k :: 0 <= k < |w| ==> !IsSpace(w[k])
    requires rest == [] || IsSpace(rest[0])
    ensures WordEnd(w + rest, i) == |w|
    decreases |w| - i
  {
    if i < |w| {
      WordEndAt(w, rest, i + 1);
    }
  }

  lemma {:induction false} SplitOfSpaces(t: string)
    requires AllSpace(t)
    ensures SplitWs(t) == []
  {
    if t != [] {
      SplitOfSpaces(t[1..]);
    }
  }

  /** A word followed by whitespace (or nothing) is split off as the first token. */
  lemma SplitWordThen(w: string, rest: string)
    requires IsWord(w)
    requires rest == [] || IsSpace(rest[0])
    ensures SplitWs(w + rest) == [w] + SplitWs(rest)
  {
    WordEndAt(w, rest, 0);
    assert (w + rest)[..|w|] == w;
    assert (w + rest)[|w|..] == rest;
  }

  /** Leading whitespace does not change the split. */
  lemma {:induction false} SplitSkipsSpaces(sp: string, t: string)
    requires AllSpace(sp)
    ensures SplitWs(sp + t) == SplitWs(t)
    decreases |sp|
  {
    if sp != [] {
      assert (sp + t)[0] == sp[0];
      assert (sp + t)[1..] == sp[1..] + t;
      SplitSkipsSpaces(sp[1..], t);
    } else {
      assert sp + t == t;
    }
  }

  /**
   * With `SplitOfSpaces` this pins `split()` down on every input: after any
   * leading whitespace, the maximal run of non-whitespace is the first token
   * and the split goes on from where that run ends.
   */
  lemma SplitLeadingWord(sp: string, w: string, rest: string)
    requires AllSpace(sp) && IsWord(w)
    requires rest == [] || IsSpace(rest[0])
    ensures SplitWs(sp + w + rest) == [w] + SplitWs(rest)
  {
    assert sp + w + rest == sp + (w + rest);
    SplitSkipsSpaces(sp, w + rest);
    SplitWordThen(w, rest);
  }

  /** `str.split()` gives back the words of text that separates them by any whitespace, whatever whitespace trails. */
  lemma {:induction false} SplitJoin(seps: seq<string>, words: seq<string>, tail: string)
    requires |seps| == |words| && Separators(seps)
    requires forall k :: 0 <= k < |words| ==> IsWord(words[k])
    requires AllSpace(tail)
    ensures SplitWs(Interleave(seps, words) + tail) == words
    decreases |words|
  {
    if words == [] {
      assert Interleave(seps, words) + tail == tail;
      SplitOfSpaces(tail);
    } else {
      var later := Interleave(seps[1..], words[1..]);
      var rest := later + tail;
      assert Separators(seps[1..]);
      SplitJoin(seps[1..], words[1..], tail);
      if |words| > 1 {
        assert later == seps[1] + words[1] + Interleave(seps[2..], words[2..]);
        assert rest[0] == seps[1][0];
      } else {
        assert rest == tail;
      }
      assert Interleave(seps, words) + tail == seps[0] + words[0] + rest;
      SplitLeadingWord(seps[0], words[0], rest);
      assert words == [words[0]] + words[1..];
    }
  }

  /** A character that is neither whitespace nor in any of the words does not occur in their layout. */
  lemma {:induction false} InterleaveAvoids(seps: seq<string>, words: seq<string>, tail: string, c: char)
    requires |seps| == |words| && Separators(seps) && AllSpace(tail) && !IsSpace(c)
    requires forall k, i :: 0 <= k < |words| && 0 <= i < |words[k]| ==> words[k][i] != c
    ensures forall i :: 0 <= i < |Interleave(seps, words) + tail| ==> (Interleave(seps, words) + tail)[i] != c
    decreases |words|
  {
    if words == [] {
      assert Interleave(seps, words) + tail == tail;
    } else {
      var rest := Interleave(seps[1..], words[1..]) + tail;
      assert Separators(seps[1..]);
      InterleaveAvoids(seps[1..], words[1..], tail, c);
      var x := Interleave(seps, words) + tail;
      assert x == seps[0] + words[0] + rest;
      forall i | 0 <= i < |x| ensures x[i] != c {
        if i < |seps[0]| {
          assert x[i] == seps[0][i];
        } else if i < |seps[0]| + |words[0]| {
          assert x[i] == words[0][i - |seps[0]|];
        } else {
          assert x[i] == rest[i - |seps[0]| - |words[0]|];
        }
      }
    }
  }

  // ---------------------------------------------------------------- substrings

  /** `t` occurs in `s` at position `i`. */
  predicate StartsAt(s: string, t: string, i: nat) {
    i + |t| <= |s| && s[i..i + |t|] == t
  }

  /** Python's `s.startswith(t)`. */
  predicate StartsWith(s: string, t: string) {
    StartsAt(s, t, 0)
  }

  /** Python's `t in s`. */
  predicate Contains(s: string, t: string) {
    exists i :: 0 <= i <= |s| && StartsAt(s, t, i)
  }

  /** An occurrence needs its first character in place. */
  lemma FirstCharMismatch(s: string, t: string, i: nat)
    requires t != [] && (i < |s| ==> s[i] != t[0])
    ensures !StartsAt(s, t, i)
  {
    if i + |t| <= |s| {
      assert s[i..i + |t|][0] == s[i];
    }
  }

  /** The first occurrence of `t` in `s` at or after `i`. */
  function FindFrom(s: string, t: string, i: nat): (r: Option<nat>)
    ensures r.Some? ==> i <= r.value && StartsAt(s, t, r.value)
    ensures r.Some? ==> forall j :: i <= j < r.value ==> !StartsAt(s, t, j)
    ensures r.None? ==> forall j :: i <= j ==> !StartsAt(s, t, j)
    decreases |s| - i
  {
    if |s| < i + |t| then None
    else if StartsAt(s, t, i) then Some(i)
    else FindFrom(s, t, i + 1)
  }

  /** An occurrence needs every character in place. */
  lemma CharMismatch(s: string, t: string, i: nat, k: nat)
    requires k < |t| && i + k < |s| && s[i + k] != t[k]
    ensures !StartsAt(s, t, i)
  {
    if i + |t| <= |s| {
      assert s[i..i + |t|][k] == s[i + k];
    }
  }

  /** Python's `s.find(t)`, with `None` for -1. */
  function IndexOf(s: string, t: string): (r: Option<nat>)
    ensures r.Some? <==> Contains(s, t)
    ensures r.Some? ==> StartsAt(s, t, r.value) && forall j :: 0 <= j < r.value ==> !StartsAt(s, t, j)
  {
    FindFrom(s, t, 0)
  }

  /** Text none of whose characters opens `t` does not contain `t`. */
  lemma NoFirstCharNoContains(s: string, t: string)
    requires t != [] && forall i :: 0 <= i < |s| ==> s[i] != t[0]
    ensures !Contains(s, t)
  {
    forall i | 0 <= i <= |s| ensures !StartsAt(s, t, i) {
      FirstCharMismatch(s, t, i);
    }
  }

  /** Text that lacks one of the characters of `t` does not contain `t`. */
  lemma NoCharNoContains(s: string, t: string, k: nat)
    requires k < |t| && forall i :: 0 <= i < |s| ==> s[i] != t[k]
    ensures !Contains(s, t)
  {
    forall i | 0 <= i <= |s| ensures !StartsAt(s, t, i) {
      if i + k < |s| {
        CharMismatch(s, t, i, k);
      }
    }
  }

  lemma StartsAtSlice(s: string, t: string, b: nat, e: nat, k: nat)
    requires b <= e <= |s|
    requires StartsAt(s[b..e], t, k)
    ensures StartsAt(s, t, b + k) && b + k + |t| <= e
  {
    assert k + |t| <= e - b;
    forall j | 0 <= j < |t| ensures s[b + k + j] == t[j] {
      assert s[b..e][k..k + |t|][j] == t[j];
    }
    assert s[b + k..b + k + |t|] == t;
  }

  /**
   * Python's `s.split(sep)[1]`: the text between the first and the second
   * occurrence of `sep`, or up to the end; `None` where the split yields a
   * single piece and the indexing raises `IndexError`.
   */
  function SecondField(s: string, sep: string): (r: Option<string>)
    requires sep != []
    ensures r.None? <==> !Contains(s, sep)
    ensures r.Some? ==> !Contains(r.value, sep)
    ensures r.Some? ==>
      var b := IndexOf(s, sep).value + |sep|;
      var e := b + |r.value|;
      e <= |s| && s[b..e] == r.value && (e == |s| || StartsAt(s, sep, e)) &&
      forall j :: b <= j < e ==> !StartsAt(s, sep, j)
  {
    match IndexOf(s, sep)
    case None => None
    case Some(i) =>
      var b := i + |sep|;
      match FindFrom(s, sep, b)
      case None =>
        var f := s[b..];
        assert f == s[b..|s|];
        assert !Contains(f, sep) by {
          if Contains(f, sep) {
            var k :| 0 <= k <= |f| && StartsAt(f, sep, k);
            StartsAtSlice(s, sep, b, |s|, k);
          }
        }
        Some(f)
      case Some(e) =>
        var f := s[b..e];
        assert !Contains(f, sep) by {
          if Contains(f, sep) {
            var k :| 0 <= k <= |f| && StartsAt(f, sep, k);
            StartsAtSlice(s, sep, b, e, k);
          }
        }
        Some(f)
  }

  /** No occurrence in a suffix means no occurrence of `s` at or after where the suffix starts. */
  lemma NoOccurrenceAfter(s: string, t: string, b: nat)
    requires b <= |s| && !Contains(s[b..], t)
    ensures forall j :: b <= j ==> !StartsAt(s, t, j)
  {
    forall j | b <= j ensures !StartsAt(s, t, j) {
      if j + |t| <= |s| {
        assert s[b..][j - b..j - b + |t|] == s[j..j + |t|];
        assert !StartsAt(s[b..], t, j - b);
      }
    }
  }

  /** When `sep` does not occur again after its first occurrence, the second field runs to the end. */
  lemma SecondFieldToEnd(s: string, sep: string, i: nat)
    requires sep != [] && IndexOf(s, sep) == Some(i)
    requires !Contains(s[i + |sep|..], sep)
    ensures SecondField(s, sep) == Some(s[i + |sep|..])
  {
    var b := i + |sep|;
    NoOccurrenceAfter(s, sep, b);
    var f := SecondField(s, sep).value;
    assert b + |f| == |s|;
  }
}
