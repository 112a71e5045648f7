/** String operations of the ECMAScript runtime that the generators rely on:
    `String.prototype.replace` with a string pattern (first occurrence only),
    `Array.prototype.join("\n")` over the lines of a template literal, and
    `String.prototype.trim`. */
module Text {

  datatype Option<+T> = None | Some(value: T)

  /** Puts `a` in front of a text that may be missing. */
  function Prepend(a: string, r: Option<string>): Option<string>
  {
    match r
    case None => None
    case Some(v) => Some(a + v)
  }

  /** A text of characters from the space up: no control character. */
  predicate Printable(s: string)
  {
    forall k :: 0 <= k < |s| ==> ' ' <= s[k]
  }

  lemma PrintableConcat(a: string, b: string)
    requires Printable(a) && Printable(b)
    ensures Printable(a + b)
  {
    forall k | 0 <= k < |a + b|
      ensures ' ' <= (a + b)[k]
    {
      if k >= |a| {
        assert (a + b)[k] == b[k - |a|];
      }
    }
  }

  lemma PrependEmpty(r: Option<string>)
    ensures Prepend("", r) == r
  {
    if r.Some? {
      assert "" + r.value == r.value;
    }
  }

  lemma PrependTwice(a: string, b: string, r: Option<string>)
    ensures Prepend(a, Prepend(b, r)) == Prepend(a + b, r)
  {
    if r.Some? {
      assert a + (b + r.value) == (a + b) + r.value;
    }
  }

  /** `p` occurs in `s` starting at index `i`. */
  predicate OccursAt(s: string, p: string, i: int)
  {
    0 <= i && i + |p| <= |s| && s[i..i + |p|] == p
  }

  predicate StartsWith(s: string, p: string)
  {
    |p| <= |s| && s[..|p|] == p
  }

  lemma OccursAtShift(s: string, p: string)
    requires |s| > 0
    ensures forall j :: 1 <= j ==> (OccursAt(s, p, j) <==> OccursAt(s[1..], p, j - 1))
  {
    forall j {:trigger OccursAt(s, p, j)} | 1 <= j && j + |p| <= |s|
      ensures s[1..][j - 1..j - 1 + |p|] == s[j..j + |p|]
    {
    }
  }

  /** The index at which `String.prototype.indexOf` finds `p` in `s`: the least
      index at which `p` occurs, or None when it occurs nowhere. */
  function FindFirst(s: string, p: string): (r: Option<nat>)
    decreases |s|
    ensures r.Some? ==> OccursAt(s, p, r.value)
    ensures r.Some? ==> forall j :: 0 <= j < r.value ==> !OccursAt(s, p, j)
    ensures r.None? ==> forall j :: !OccursAt(s, p, j)
  {
    if StartsWith(s, p) then
      assert OccursAt(s, p, 0);
      Some(0)
    else if |s| == 0 then
      None
    else
      OccursAtShift(s, p);
      assert !OccursAt(s, p, 0);
      match FindFirst(s[1..], p)
      case None => None
      case Some(i) => Some(i + 1)
  }

  predicate Contains(s: string, p: string)
  {
    FindFirst(s, p).Some?
  }

  /** `s.replace(p, r)` for a string pattern `p` and a replacement `r` that holds
      no `$` substitution pattern: the first occurrence of `p` becomes `r`. */
  function ReplaceFirst(s: string, p: string, r: string): string
  {
    match FindFirst(s, p)
    case None => s
    case Some(i) => s[..i] + r + s[i + |p|..]
  }

  lemma FirstOccurrence(s: string, p: string, i: nat)
    requires OccursAt(s, p, i)
    requires forall j :: 0 <= j < i ==> !OccursAt(s, p, j)
    ensures FindFirst(s, p) == Some(i)
  {
  }

  lemma OccursInConcat(a: string, x: string, b: string, p: string, i: int)
    requires OccursAt(x, p, i)
    ensures OccursAt(a + x + b, p, |a| + i)
  {
    assert (a + x + b)[|a| + i..|a| + i + |p|] == x[i..i + |p|];
  }

  /** A character that cannot be part of an occurrence of `p`. */
  predicate Barrier(c: char, p: string)
  {
    c !in p
  }

  /** Every character covered by an occurrence of `p` is a character of `p`. */
  lemma CoveredChar(s: string, p: string, j: int, k: int)
    requires 0 <= j <= k < j + |p| <= |s|
    ensures OccursAt(s, p, j) ==> s[k] in p
  {
    assert s[j..j + |p|][k - j] == s[k];
  }

  /** No occurrence of `p` straddles the junction of `a` and `b` when one of the
      two characters that meet there is foreign to `p`. */
  lemma NotContainsConcat(a: string, b: string, p: string)
    requires !Contains(a, p) && !Contains(b, p)
    requires |a| == 0 || |b| == 0 || Barrier(a[|a| - 1], p) || Barrier(b[0], p)
    ensures !Contains(a + b, p)
  {
    var s := a + b;
    forall j | 0 <= j && j + |p| <= |s|
      ensures !OccursAt(s, p, j)
    {
      if j + |p| <= |a| {
        OccursLeft(a, b, p, j);
      } else if j >= |a| {
        OccursShifted(a, b, p, j);
      } else {
        CoveredChar(s, p, j, |a| - 1);
        CoveredChar(s, p, j, |a|);
        assert s[|a| - 1] == a[|a| - 1] && s[|a|] == b[0];
      }
    }
  }

  lemma OccursLeft(a: string, b: string, p: string, j: nat)
    requires j + |p| <= |a|
    ensures OccursAt(a + b, p, j) <==> OccursAt(a, p, j)
  {
    assert (a + b)[j..j + |p|] == a[j..j + |p|];
  }

  /** If `a` holds no occurrence of `p` and its last character is foreign to `p`,
      the first occurrence of `p` in `a + p + t` is the one right after `a`. */
  lemma FindFirstAfter(a: string, p: string, t: string)
    requires !Contains(a, p)
    requires |a| == 0 || Barrier(a[|a| - 1], p)
    ensures FindFirst(a + p + t, p) == Some(|a|)
  {
    var s := a + p + t;
    assert s[|a|..|a| + |p|] == p;
    forall j | 0 <= j < |a|
      ensures !OccursAt(s, p, j)
    {
      if j + |p| <= |a| {
        assert s[j..j + |p|] == a[j..j + |p|];
        assert !OccursAt(a, p, j);
      } else {
        CoveredChar(s, p, j, |a| - 1);
        assert s[|a| - 1] == a[|a| - 1];
      }
    }
    FirstOccurrence(s, p, |a|);
  }

  /** The text of a template literal written as lines: `lines.join("\n")`. */
  function JoinLines(lines: seq<string>): string
  {
    if |lines| == 0 then ""
    else if |lines| == 1 then lines[0]
    else lines[0] + "\n" + JoinLines(lines[1..])
  }

  lemma {:induction false} JoinLinesAppend(a: seq<string>, b: seq<string>)
    requires |a| > 0 && |b| > 0
    ensures JoinLines(a + b) == JoinLines(a) + "\n" + JoinLines(b)
  {
    if |a| == 1 {
      assert (a + b)[1..] == b;
    } else {
      assert (a + b)[1..] == a[1..] + b;
      JoinLinesAppend(a[1..], b);
    }
  }

  /** WhiteSpace and LineTerminator code points of ECMAScript (section 12.2 and
      12.3 of ECMA-262), the characters `trim` removes. */
  predicate IsJsSpace(c: char)
  {
    || c == '\t' || c == '\U{000B}' || c == '\U{000C}' || c == ' ' || c == '\U{00A0}'
    || c == '\U{1680}' || ('\U{2000}' <= c <= '\U{200A}') || c == '\U{202F}'
    || c == '\U{205F}' || c == '\U{3000}' || c == '\U{FEFF}'
    || c == '\n' || c == '\r' || c == '\U{2028}' || c == '\U{2029}'
  }

  function TrimStart(s: string): (r: string)
    decreases |s|
    ensures |r| <= |s| && r == s[|s| - |r|..]
    ensures forall k :: 0 <= k < |s| - |r| ==> IsJsSpace(s[k])
    ensures |r| > 0 ==> !IsJsSpace(r[0])
  {
    if |s| > 0 && IsJsSpace(s[0]) then TrimStart(s[1..]) else s
  }

  function TrimEnd(s: string): (r: string)
    decreases |s|
    ensures |r| <= |s| && r == s[..|r|]
    ensures forall k :: |r| <= k < |s| ==> IsJsSpace(s[k])
    ensures |r| > 0 ==> !IsJsSpace(r[|r| - 1])
  {
    if |s| > 0 && IsJsSpace(s[|s| - 1]) then TrimEnd(s[..|s| - 1]) else s
  }

  /** `s.trim()`. */
  function Trim(s: string): string
  {
    TrimEnd(TrimStart(s))
  }

  lemma {:induction false} TrimStartPadded(w: string, y: string)
    requires forall k :: 0 <= k < |w| ==> IsJsSpace(w[k])
    requires |y| > 0 && !IsJsSpace(y[0])
    ensures TrimStart(w + y) == y
  {
    if |w| == 0 {
      assert w + y == y;
    } else {
      assert (w + y)[0] == w[0];
      assert (w + y)[1..] == w[1..] + y;
      TrimStartPadded(w[1..], y);
    }
  }

  lemma {:induction false} TrimEndPadded(y: string, w: string)
    requires forall k :: 0 <= k < |w| ==> IsJsSpace(w[k])
    requires |y| > 0 && !IsJsSpace(y[|y| - 1])
    ensures TrimEnd(y + w) == y
  {
    if |w| == 0 {
      assert y + w == y;
    } else {
      assert (y + w)[|y + w| - 1] == w[|w| - 1];
      assert (y + w)[..|y + w| - 1] == y + w[..|w| - 1];
      TrimEndPadded(y, w[..|w| - 1]);
    }
  }

  /** Trimming removes exactly the white space around a text that neither starts
      nor ends with white space. */
  lemma TrimPadded(w1: string, x: string, w2: string)
    requires forall k :: 0 <= k < |w1| ==> IsJsSpace(w1[k])
    requires forall k :: 0 <= k < |w2| ==> IsJsSpace(w2[k])
    requires |x| > 0 && !IsJsSpace(x[0]) && !IsJsSpace(x[|x| - 1])
    ensures Trim(w1 + x + w2) == x
  {
    assert w1 + x + w2 == w1 + (x + w2);
    TrimStartPadded(w1, x + w2);
    TrimEndPadded(x, w2);
  }

  /** A global rewrite of single characters, as `s.replace(/c/g, ...)` and the
      per-character escaping of JSON strings perform it: each character `c`
      becomes `f(c)`. */
  function MapChars(f: char -> string, s: string): string
  {
    if |s| == 0 then "" else f(s[0]) + MapChars(f, s[1..])
  }

  lemma {:induction false} MapCharsConcat(f: char -> string, a: string, b: string)
    ensures MapChars(f, a + b) == MapChars(f, a) + MapChars(f, b)
  {
    if |a| == 0 {
      assert a + b == b;
    } else {
      assert (a + b)[0] == a[0];
      assert (a + b)[1..] == a[1..] + b;
      MapCharsConcat(f, a[1..], b);
    }
  }

  /** A text whose characters the rewrite keeps is left as it is. */
  lemma {:induction false} MapCharsFixed(f: char -> string, s: string)
    requires forall k :: 0 <= k < |s| ==> f(s[k]) == [s[k]]
    ensures MapChars(f, s) == s
  {
    if |s| > 0 {
      MapCharsFixed(f, s[1..]);
      assert s == [s[0]] + s[1..];
    }
  }

  /** The rewrite `f` keeps every character of `p`, and turns every other
      character it changes into a nonempty text made only of characters foreign
      to `p`; so it neither creates nor destroys occurrences of `p`. */
  predicate Transparent(f: char -> string, p: string)
  {
    forall c :: f(c) == [c] || (c !in p && |f(c)| > 0 && forall k :: 0 <= k < |f(c)| ==> f(c)[k] !in p)
  }

  lemma {:induction false} MapCharsStartsWith(f: char -> string, s: string, x: string, p: string)
    requires Transparent(f, p)
    requires forall k :: 0 <= k < |x| ==> x[k] in p
    ensures StartsWith(MapChars(f, s), x) ==> StartsWith(s, x)
  {
    if |x| > 0 && StartsWith(MapChars(f, s), x) {
      var m := MapChars(f, s);
      assert |s| > 0;
      assert m[0] == x[0];
      assert m == f(s[0]) + MapChars(f, s[1..]);
      assert |f(s[0])| > 0 && m[0] == f(s[0])[0];
      assert f(s[0]) == [s[0]];
      assert MapChars(f, s[1..]) == m[1..];
      assert m[1..][..|x| - 1] == x[1..];
      MapCharsStartsWith(f, s[1..], x[1..], p);
      assert s == [s[0]] + s[1..];
    }
  }

  lemma SelfChars(p: string)
    ensures forall k :: 0 <= k < |p| ==> p[k] in p
  {
  }

  lemma OccursShifted(x: string, y: string, p: string, j: int)
    requires j >= |x|
    ensures OccursAt(x + y, p, j) <==> OccursAt(y, p, j - |x|)
  {
    if j + |p| <= |x + y| {
      assert (x + y)[j..j + |p|] == y[j - |x|..j - |x| + |p|];
    }
  }

  /** Shifting the search past a prefix in which `p` cannot start. */
  lemma FindFirstPastPrefix(s: string, x: string, y: string, p: string)
    requires s == x + y
    requires forall k :: 0 <= k < |x| ==> !OccursAt(s, p, k)
    ensures FindFirst(y, p).None? ==> FindFirst(s, p).None?
    ensures FindFirst(y, p).Some? ==> FindFirst(s, p) == Some(|x| + FindFirst(y, p).value)
  {
    if FindFirst(y, p).None? {
      PastPrefixMissing(s, x, y, p);
    } else {
      PastPrefixFound(s, x, y, p, FindFirst(y, p).value);
    }
  }

  lemma PastPrefixMissing(s: string, x: string, y: string, p: string)
    requires s == x + y
    requires forall k :: 0 <= k < |x| ==> !OccursAt(s, p, k)
    requires forall j :: !OccursAt(y, p, j)
    ensures FindFirst(s, p).None?
  {
    forall j | |x| <= j
      ensures !OccursAt(s, p, j)
    {
      OccursShifted(x, y, p, j);
    }
  }

  lemma PastPrefixFound(s: string, x: string, y: string, p: string, i: nat)
    requires s == x + y
    requires forall k :: 0 <= k < |x| ==> !OccursAt(s, p, k)
    requires OccursAt(y, p, i) && forall j :: 0 <= j < i ==> !OccursAt(y, p, j)
    ensures FindFirst(s, p) == Some(|x| + i)
  {
    forall j | |x| <= j < |x| + i
      ensures !OccursAt(s, p, j)
    {
      OccursShifted(x, y, p, j);
    }
    OccursShifted(x, y, p, |x| + i);
    FirstOccurrence(s, p, |x| + i);
  }

  /** When `p` does not start `s`, it cannot start inside the rewrite of the
      first character of `s`. */
  lemma RewrittenHead(f: char -> string, s: string, p: string)
    requires |p| > 0 && Transparent(f, p)
    requires |s| > 0 && !StartsWith(s, p)
    ensures forall k :: 0 <= k < |f(s[0])| ==> !OccursAt(MapChars(f, s), p, k)
  {
    var h := f(s[0]);
    var m := MapChars(f, s);
    assert m == h + MapChars(f, s[1..]);
    SelfChars(p);
    MapCharsStartsWith(f, s, p, p);
    assert !OccursAt(m, p, 0);
    forall k | 0 <= k < |h|
      ensures !OccursAt(m, p, k)
    {
      if k + |p| <= |m| {
        CoveredChar(m, p, k, k);
        assert m[k] == h[k];
      }
    }
  }

  lemma MapCharsKeepsStart(f: char -> string, s: string, p: string)
    requires Transparent(f, p) && StartsWith(s, p)
    ensures StartsWith(MapChars(f, s), p)
  {
    assert s == p + s[|p|..];
    MapCharsConcat(f, p, s[|p|..]);
    SelfChars(p);
    MapCharsFixed(f, p);
  }

  /** Without a match at its start, a text is searched from its second character. */
  lemma FindFirstTail(s: string, p: string)
    requires |s| > 0 && !StartsWith(s, p)
    ensures FindFirst(s[1..], p).None? ==> FindFirst(s, p).None?
    ensures FindFirst(s[1..], p).Some? ==> FindFirst(s, p) == Some(FindFirst(s[1..], p).value + 1)
  {
  }

  /** The inductive step of `FindFirstMapChars` when the tail holds `p` at `i`. */
  lemma RewriteFoundStep(f: char -> string, s: string, p: string, i: nat)
    requires 0 < |s| && i < |s| - 1
    requires forall k :: 0 <= k < |f(s[0])| ==> !OccursAt(MapChars(f, s), p, k)
    requires FindFirst(MapChars(f, s[1..]), p) == Some(|MapChars(f, s[1..][..i])|)
    ensures FindFirst(MapChars(f, s), p) == Some(|MapChars(f, s[..i + 1])|)
  {
    MapCharsPrefixLength(f, s, i);
    MapCharsHead(f, s);
    ShiftFoundAt(MapChars(f, s), f(s[0]), MapChars(f, s[1..]), p, |MapChars(f, s[1..][..i])|,
      |MapChars(f, s[..i + 1])|);
  }

  lemma MapCharsHead(f: char -> string, s: string)
    requires 0 < |s|
    ensures MapChars(f, s) == f(s[0]) + MapChars(f, s[1..])
  {
  }

  /** An occurrence found after a prefix that holds no start of one. */
  lemma ShiftFoundAt(m: string, h: string, m': string, p: string, k: nat, n: nat)
    requires m == h + m' && n == |h| + k
    requires forall j :: 0 <= j < |h| ==> !OccursAt(m, p, j)
    requires FindFirst(m', p) == Some(k)
    ensures FindFirst(m, p) == Some(n)
  {
    ShiftFound(m, h, m', p, k);
  }

  lemma ShiftFound(m: string, h: string, m': string, p: string, k: nat)
    requires m == h + m'
    requires forall j :: 0 <= j < |h| ==> !OccursAt(m, p, j)
    requires FindFirst(m', p) == Some(k)
    ensures FindFirst(m, p) == Some(|h| + k)
  {
    PastPrefixFound(m, h, m', p, k);
  }

  /** The inductive step of `FindFirstMapChars` when the tail holds no `p`. */
  lemma RewriteMissingStep(f: char -> string, s: string, p: string)
    requires 0 < |s|
    requires forall k :: 0 <= k < |f(s[0])| ==> !OccursAt(MapChars(f, s), p, k)
    requires FindFirst(MapChars(f, s[1..]), p).None?
    ensures FindFirst(MapChars(f, s), p).None?
  {
    var m := MapChars(f, s);
    assert m == f(s[0]) + MapChars(f, s[1..]);
    FindFirstPastPrefix(m, f(s[0]), MapChars(f, s[1..]), p);
  }

  lemma MapCharsPrefixLength(f: char -> string, s: string, i: nat)
    requires 0 < |s| && i < |s|
    ensures |MapChars(f, s[..i + 1])| == |f(s[0])| + |MapChars(f, s[1..][..i])|
  {
    assert s[..i + 1] == [s[0]] + s[1..][..i];
    MapCharsConcat(f, [s[0]], s[1..][..i]);
    assert MapChars(f, [s[0]]) == f(s[0]) by {
      assert [s[0]][1..] == "";
    }
  }

  /** Searching a rewritten text: `p` is first found in `MapChars(f, s)` exactly
      where the rewrite of the text before its first occurrence in `s` ends. */
  lemma {:induction false} FindFirstMapChars(f: char -> string, s: string, p: string)
    requires |p| > 0 && Transparent(f, p)
    ensures FindFirst(s, p).None? ==> FindFirst(MapChars(f, s), p).None?
    ensures FindFirst(s, p).Some? ==>
      FindFirst(MapChars(f, s), p) == Some(|MapChars(f, s[..FindFirst(s, p).value])|)
  {
    var m := MapChars(f, s);
    if StartsWith(s, p) {
      MapCharsKeepsStart(f, s, p);
      assert FindFirst(s, p) == Some(0) && FindFirst(m, p) == Some(0);
      assert MapChars(f, s[..0]) == "" by {
        assert s[..0] == "";
      }
    } else if |s| == 0 {
      assert m == "";
      assert FindFirst(s, p) == None && FindFirst(m, p) == None;
    } else {
      RewrittenHead(f, s, p);
      FindFirstMapChars(f, s[1..], p);
      FindFirstTail(s, p);
      if FindFirst(s[1..], p).Some? {
        RewriteFoundStep(f, s, p, FindFirst(s[1..], p).value);
      } else {
        RewriteMissingStep(f, s, p);
      }
    }
  }

  /** A transparent rewrite neither creates nor destroys an occurrence. */
  lemma ContainsMapChars(f: char -> string, s: string, p: string)
    requires |p| > 0 && Transparent(f, p)
    ensures Contains(MapChars(f, s), p) <==> Contains(s, p)
  {
    FindFirstMapChars(f, s, p);
  }

  lemma ReplaceAt(a: string, p: string, b: string, r: string)
    requires FindFirst(a + p + b, p) == Some(|a|)
    ensures ReplaceFirst(a + p + b, p, r) == a + r + b
  {
    var s := a + p + b;
    assert s[..|a|] == a;
    assert s[|a| + |p|..] == b;
  }

  /** A transparent rewrite keeps an occurrence of `p` in place. */
  lemma MapCharsAround(f: char -> string, s: string, p: string, i: int)
    requires Transparent(f, p) && OccursAt(s, p, i)
    ensures MapChars(f, s) == MapChars(f, s[..i]) + p + MapChars(f, s[i + |p|..])
  {
    assert s == s[..i] + p + s[i + |p|..];
    MapCharsConcat(f, s[..i] + p, s[i + |p|..]);
    MapCharsConcat(f, s[..i], p);
    SelfChars(p);
    MapCharsFixed(f, p);
  }

  /** Replacing the first occurrence of `p` in a rewritten text replaces the
      rewrite of the first occurrence in the original. */
  lemma ReplaceFirstMapChars(f: char -> string, s: string, p: string, r: string, i: nat)
    requires |p| > 0 && Transparent(f, p)
    requires FindFirst(s, p) == Some(i)
    ensures ReplaceFirst(MapChars(f, s), p, r) == MapChars(f, s[..i]) + r + MapChars(f, s[i + |p|..])
  {
    FindFirstMapChars(f, s, p);
    MapCharsAround(f, s, p, i);
    ReplaceAt(MapChars(f, s[..i]), p, MapChars(f, s[i + |p|..]), r);
  }

  /** A rewritten text without `p` is left alone by the replacement. */
  lemma ReplaceFirstMapCharsNone(f: char -> string, s: string, p: string, r: string)
    requires |p| > 0 && Transparent(f, p)
    requires !Contains(s, p)
    ensures ReplaceFirst(MapChars(f, s), p, r) == MapChars(f, s)
  {
    FindFirstMapChars(f, s, p);
  }

  /** A text without the first character of `p` holds no occurrence of `p`. */
  lemma AbsentStart(s: string, p: string)
    requires |p| > 0 && p[0] !in s
    ensures !Contains(s, p)
  {
    forall j | 0 <= j && j + |p| <= |s|
      ensures !OccursAt(s, p, j)
    {
      assert s[j..j + |p|][0] == s[j];
    }
  }

  /** Appending text does not move the first occurrence of `p`. */
  lemma FindFirstExtended(a: string, b: string, p: string)
    requires Contains(a, p)
    ensures FindFirst(a + b, p) == FindFirst(a, p)
  {
    var k := FindFirst(a, p).value;
    OccursInConcat("", a, b, p, k);
    assert "" + a + b == a + b;
    forall j | 0 <= j < k
      ensures !OccursAt(a + b, p, j)
    {
      assert !OccursAt(a, p, j);
      assert (a + b)[j..j + |p|] == a[j..j + |p|];
    }
    FirstOccurrence(a + b, p, k);
  }

  /** Appending text leaves the replacement of an earlier occurrence alone. */
  lemma ReplaceFirstExtended(a: string, b: string, p: string, r: string)
    requires Contains(a, p)
    ensures ReplaceFirst(a + b, p, r) == ReplaceFirst(a, p, r) + b
  {
    FindFirstExtended(a, b, p);
    var k := FindFirst(a, p).value;
    ReplaceFound(a, p, r, k);
    ReplaceFound(a + b, p, r, k);
    SpliceExtended(a, b, r, k, |p|);
  }

  lemma ReplaceFound(s: string, p: string, r: string, k: nat)
    requires FindFirst(s, p) == Some(k)
    ensures k + |p| <= |s| && ReplaceFirst(s, p, r) == s[..k] + r + s[k + |p|..]
  {
  }

  lemma SpliceExtended(a: string, b: string, r: string, k: nat, n: nat)
    requires k + n <= |a|
    ensures (a + b)[..k] + r + (a + b)[k + n..] == a[..k] + r + a[k + n..] + b
  {
    assert (a + b)[..k] == a[..k];
    assert (a + b)[k + n..] == a[k + n..] + b;
  }

  /** The first occurrence of `p` in `a + p + t` is the one right after `a`
      exactly when `a` holds none, provided `a` ends in a character foreign
      to `p`. */
  lemma FirstAfterIff(a: string, p: string, t: string)
    requires |a| > 0 && Barrier(a[|a| - 1], p)
    ensures FindFirst(a + p + t, p) == Some(|a|) <==> !Contains(a, p)
  {
    if Contains(a, p) {
      FindFirstExtended(a, p + t, p);
      assert a + p + t == a + (p + t);
    } else {
      FindFirstAfter(a, p, t);
    }
  }
}
