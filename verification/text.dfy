/** The handful of Python `str` operations the parsers are built from:
    `strip`, `startswith`/`endswith`, `in`, `find`, `replace`, `split`,
    `join`, `int()` and `str()` of an integer, each with the semantics
    CPython gives it. */
module Text {
  import opened Wrappers

  // ---------------------------------------------------------------------
  // Whitespace and stripping
  // ---------------------------------------------------------------------

  /** The characters for which `str.isspace()` holds (Unicode White_Space
      plus the ASCII information separators 0x1C-0x1F), by code point:
      TAB..CR, FS..SPACE, NEL, NBSP, OGHAM SPACE MARK, EN QUAD..HAIR SPACE,
      LINE/PARAGRAPH SEPARATOR, NNBSP, MMSP and IDEOGRAPHIC SPACE. */
  predicate IsSpace(c: char) {
    var k := c as int;
    (0x09 <= k <= 0x0D) || (0x1C <= k <= 0x20) || k == 0x85 || k == 0xA0 ||
    k == 0x1680 || (0x2000 <= k <= 0x200A) || k == 0x2028 || k == 0x2029 ||
    k == 0x202F || k == 0x205F || k == 0x3000
  }

  /** The end of `s[..n]` once its trailing whitespace is dropped. */
  function RStripEnd(s: string, n: nat): (e: nat)
    requires n <= |s|
    ensures e <= n
    ensures e > 0 ==> !IsSpace(s[e - 1])
    decreases n
  {
    if n > 0 && IsSpace(s[n - 1]) then RStripEnd(s, n - 1) else n
  }

  /** The start of `s[k..]` once its leading whitespace is dropped. */
  function LStripStart(s: string, k: nat): (b: nat)
    requires k <= |s|
    ensures k <= b <= |s|
    ensures b < |s| ==> !IsSpace(s[b])
    decreases |s| - k
  {
    if k < |s| && IsSpace(s[k]) then LStripStart(s, k + 1) else k
  }

  /** `s.rstrip()` */
  function RStrip(s: string): (r: string)
    ensures r <= s
    ensures |r| > 0 ==> !IsSpace(r[|r| - 1])
  {
    s[..RStripEnd(s, |s|)]
  }

  /** `s.lstrip()` */
  function LStrip(s: string): (r: string)
    ensures |r| <= |s| && r == s[|s| - |r|..]
    ensures |r| > 0 ==> !IsSpace(r[0])
  {
    s[LStripStart(s, 0)..]
  }

  /** `s.strip()`: the longest infix without surrounding whitespace. */
  function Strip(s: string): (r: string)
    ensures |r| <= |s|
    ensures |r| > 0 ==> !IsSpace(r[0]) && !IsSpace(r[|r| - 1])
  {
    LStrip(RStrip(s))
  }

  lemma {:induction false} RStripEndSpaces(s: string, n: nat)
    requires n <= |s|
    ensures forall i :: RStripEnd(s, n) <= i < n ==> IsSpace(s[i])
    decreases n
  {
    if n > 0 && IsSpace(s[n - 1]) {
      RStripEndSpaces(s, n - 1);
    }
  }

  lemma {:induction false} LStripStartSpaces(s: string, k: nat)
    requires k <= |s|
    ensures forall i :: k <= i < LStripStart(s, k) ==> IsSpace(s[i])
    decreases |s| - k
  {
    if k < |s| && IsSpace(s[k]) {
      LStripStartSpaces(s, k + 1);
    }
  }

  /** rstrip removes only whitespace. */
  lemma RStripDropsSpaces(s: string)
    ensures forall i :: |RStrip(s)| <= i < |s| ==> IsSpace(s[i])
  {
    RStripEndSpaces(s, |s|);
  }

  /** lstrip removes only whitespace. */
  lemma LStripDropsSpaces(s: string)
    ensures forall i :: 0 <= i < |s| - |LStrip(s)| ==> IsSpace(s[i])
  {
    LStripStartSpaces(s, 0);
  }

  lemma StripUnchanged(s: string)
    requires |s| > 0 && !IsSpace(s[0]) && !IsSpace(s[|s| - 1])
    ensures Strip(s) == s
  {
  }

  /** `strip` removes the surrounding whitespace and nothing else: its
      result is the infix of `s` starting at some `b`, every character
      before or after that infix is whitespace, and the infix neither
      starts nor ends with whitespace. */
  lemma StripSpec(s: string)
    ensures var r := Strip(s);
            exists b :: 0 <= b <= |s| - |r| && r <= s[b..]
              && (forall i :: 0 <= i < b ==> IsSpace(s[i]))
              && (forall i :: b + |r| <= i < |s| ==> IsSpace(s[i]))
              && (|r| > 0 ==> !IsSpace(r[0]) && !IsSpace(r[|r| - 1]))
  {
    var e := RStripEnd(s, |s|);
    var t := s[..e];
    var b := LStripStart(t, 0);
    RStripEndSpaces(s, |s|);
    LStripStartSpaces(t, 0);
    var r := Strip(s);
    assert r == t[b..];
    assert t[b..] == s[b..b + |r|];
    assert r <= s[b..];
    assert forall i :: 0 <= i < b ==> s[i] == t[i];
  }

  // ---------------------------------------------------------------------
  // Prefixes and substrings
  // ---------------------------------------------------------------------

  /** `s.startswith(p)` */
  predicate StartsWith(s: string, p: string) {
    p <= s
  }

  /** `s.endswith(p)` */
  predicate EndsWith(s: string, p: string) {
    |p| <= |s| && s[|s| - |p|..] == p
  }

  /** `sub` occurs in `s` starting at index `j`. */
  predicate OccursAt(s: string, sub: string, j: int) {
    0 <= j && j + |sub| <= |s| && s[j..j + |sub|] == sub
  }

  /** The leftmost occurrence of `sub` at or after index `k`. */
  function IndexFrom(s: string, sub: string, k: nat): (r: Option<nat>)
    ensures r.Some? ==> k <= r.value && OccursAt(s, sub, r.value)
    ensures forall j :: k <= j && (r.None? || j < r.value) ==> !OccursAt(s, sub, j)
    decreases |s| - k
  {
    if k + |sub| > |s| then None
    else if OccursAt(s, sub, k) then Some(k)
    else IndexFrom(s, sub, k + 1)
  }

  /** `s.find(sub)`, with None for -1: the leftmost occurrence. */
  function IndexOf(s: string, sub: string): (r: Option<nat>)
    ensures r.Some? ==> OccursAt(s, sub, r.value)
    ensures r.Some? ==> forall j :: 0 <= j < r.value ==> !OccursAt(s, sub, j)
    ensures r.None? ==> forall j :: !OccursAt(s, sub, j)
  {
    IndexFrom(s, sub, 0)
  }

  /** `sub in s` */
  predicate Contains(s: string, sub: string) {
    IndexOf(s, sub).Some?
  }

  lemma OccursAtStartsWith(s: string, sub: string, k: nat)
    requires k <= |s|
    ensures OccursAt(s, sub, k) <==> StartsWith(s[k..], sub)
  {
    if OccursAt(s, sub, k) {
      assert s[k..][..|sub|] == s[k..k + |sub|];
    }
    if StartsWith(s[k..], sub) {
      assert s[k..][..|sub|] == s[k..k + |sub|];
    }
  }

  /** One differing character rules out an occurrence. */
  lemma OccursAtMismatch(s: string, sub: string, j: int, k: int)
    requires 0 <= k < |sub|
    requires 0 <= j && j + |sub| <= |s| ==> s[j + k] != sub[k]
    ensures !OccursAt(s, sub, j)
  {
    if 0 <= j && j + |sub| <= |s| {
      assert s[j..j + |sub|][k] == s[j + k];
    }
  }

  /** For a one-character needle, `[c] in s` is plain membership. */
  lemma ContainsChar(s: string, c: char)
    ensures Contains(s, [c]) <==> c in s
  {
    if c in s {
      var j :| 0 <= j < |s| && s[j] == c;
      assert OccursAt(s, [c], j);
    }
    if Contains(s, [c]) {
      var j := IndexOf(s, [c]).value;
      assert s[j..j + 1] == [c];
      assert s[j] == c;
    }
  }

  /** A string containing `sub` contains every substring of `sub`. */
  lemma ContainsInner(s: string, sub: string, q: string, k: nat)
    requires Contains(s, sub) && OccursAt(sub, q, k)
    ensures Contains(s, q)
  {
    var j := IndexOf(s, sub).value;
    assert s[j + k..j + k + |q|] == sub[k..k + |q|];
    assert OccursAt(s, q, j + k);
  }

  /** `s.find(c)` for one character: the first position holding `c`. */
  lemma IndexOfChar(s: string, c: char)
    ensures IndexOf(s, [c]).Some? ==>
              s[IndexOf(s, [c]).value] == c && c !in s[..IndexOf(s, [c]).value]
    ensures IndexOf(s, [c]).None? ==> c !in s
  {
    ContainsChar(s, c);
    if IndexOf(s, [c]).Some? {
      var i := IndexOf(s, [c]).value;
      assert s[i..i + 1] == [c];
      forall k | 0 <= k < i ensures s[k] != c {
        assert !OccursAt(s, [c], k);
        assert s[k..k + 1] == [s[k]];
      }
    }
  }

  // ---------------------------------------------------------------------
  // replace
  // ---------------------------------------------------------------------

  /** `s.replace(pat, rep)`: every non-overlapping occurrence, left to right. */
  function Replace(s: string, pat: string, rep: string): (r: string)
    requires |pat| > 0
    decreases |s|
  {
    if StartsWith(s, pat) then rep + Replace(s[|pat|..], pat, rep)
    else if s == [] then s
    else [s[0]] + Replace(s[1..], pat, rep)
  }

  /** An occurrence in the tail of a text is an occurrence in the text. */
  lemma ContainsTail(s: string, pat: string)
    requires |s| > 0
    ensures Contains(s[1..], pat) ==> Contains(s, pat)
  {
    if Contains(s[1..], pat) {
      var j := IndexOf(s[1..], pat).value;
      assert s[1..][j..j + |pat|] == s[j + 1..j + 1 + |pat|];
      assert OccursAt(s, pat, j + 1);
    }
  }

  /** With no occurrence of `pat`, `replace` returns its input. */
  lemma {:induction false} ReplaceAbsent(s: string, pat: string, rep: string)
    requires |pat| > 0
    requires !Contains(s, pat)
    ensures Replace(s, pat, rep) == s
    decreases |s|
  {
    OccursAtStartsWith(s, pat, 0);
    assert s[0..] == s;
    if s != [] {
      ContainsTail(s, pat);
      ReplaceAbsent(s[1..], pat, rep);
    }
  }

  lemma AppendAssoc(a: string, b: string, c: string)
    ensures a + b + c == a + (b + c)
  {
  }

  /** A leading tag that does not recur in the rest is the only text `replace` removes. */
  /** A text that starts with the pattern and holds no other occurrence
      has just that one replaced. */
  lemma ReplaceLeading(pat: string, v: string, rep: string)
    requires |pat| > 0 && !Contains(v, pat)
    ensures Replace(pat + v, pat, rep) == rep + v
  {
    assert StartsWith(pat + v, pat) && (pat + v)[|pat|..] == v;
    ReplaceAbsent(v, pat, rep);
  }

  /** The one occurrence right after a prefix in which none starts is
      the only one replaced. */
  lemma ReplaceOnceAfter(x: string, pat: string, v: string, rep: string)
    requires |pat| > 0 && !Contains(v, pat)
    requires forall k :: 0 <= k < |x| ==> !StartsWith((x + (pat + v))[k..], pat)
    ensures Replace(x + (pat + v), pat, rep) == x + (rep + v)
  {
    ReplaceSkipsPrefix(x, pat + v, pat, rep);
    ReplaceLeading(pat, v, rep);
  }

  lemma ReplaceLeadingTag(tag: string, v: string)
    requires |tag| > 0 && !Contains(v, tag)
    ensures Replace(tag + v, tag, "") == v
  {
    assert StartsWith(tag + v, tag) && (tag + v)[|tag|..] == v;
    ReplaceAbsent(v, tag, "");
  }

  /** Removing the one occurrence of `c` between `x` and `y`. */
  lemma ReplaceOnlyChar(x: string, c: char, y: string)
    requires c !in x && c !in y
    ensures Replace(x + [c] + y, [c], "") == x + y
  {
    var t := [c] + y;
    forall k | 0 <= k < |x| ensures !StartsWith((x + t)[k..], [c]) {
      assert (x + t)[k..][0] == x[k];
    }
    ReplaceSkipsPrefix(x, t, [c], "");
    assert x + [c] + y == x + t;
    assert StartsWith(t, [c]) && t[1..] == y;
    assert Replace(t, [c], "") == Replace(y, [c], "");
    ContainsChar(y, c);
    ReplaceAbsent(y, [c], "");
  }

  /** Replacing a one-character needle by a text without that character
      leaves no such character behind. */
  lemma {:induction false} ReplaceRemovesChar(s: string, c: char, rep: string)
    requires c !in rep
    ensures c !in Replace(s, [c], rep)
    decreases |s|
  {
    if StartsWith(s, [c]) {
      ReplaceRemovesChar(s[1..], c, rep);
    } else if s != [] {
      assert s[0] != c;
      ReplaceRemovesChar(s[1..], c, rep);
    }
  }

  /** Replacing one character by another maps the text position by position. */
  lemma {:induction false} ReplaceCharByChar(s: string, c: char, d: char)
    ensures |Replace(s, [c], [d])| == |s|
    ensures forall i :: 0 <= i < |s| ==> Replace(s, [c], [d])[i] == if s[i] == c then d else s[i]
    decreases |s|
  {
    if s != [] {
      ReplaceCharByChar(s[1..], c, d);
      assert StartsWith(s, [c]) <==> s[0] == c;
      var r := Replace(s, [c], [d]);
      assert r == [if s[0] == c then d else s[0]] + Replace(s[1..], [c], [d]);
      forall i | 0 <= i < |s| ensures r[i] == if s[i] == c then d else s[i] {
        if i > 0 {
          assert s[1..][i - 1] == s[i];
        }
      }
    }
  }

  /** A character the needle does not hold survives `replace`. */
  lemma {:induction false} ReplaceKeepsChar(s: string, pat: string, rep: string, c: char)
    requires |pat| > 0 && c in s && c !in pat
    ensures c in Replace(s, pat, rep)
    decreases |s|
  {
    if StartsWith(s, pat) {
      var k :| 0 <= k < |s| && s[k] == c;
      assert k >= |pat|;
      assert s[|pat|..][k - |pat|] == c;
      ReplaceKeepsChar(s[|pat|..], pat, rep, c);
    } else if s[0] != c {
      var k :| 0 <= k < |s| && s[k] == c;
      assert s[1..][k - 1] == c;
      ReplaceKeepsChar(s[1..], pat, rep, c);
    }
  }

  /** A prefix none of whose positions starts an occurrence of `pat`
      passes through `replace` untouched. */
  lemma {:induction false} ReplaceSkipsPrefix(x: string, t: string, pat: string, rep: string)
    requires |pat| > 0
    requires forall k :: 0 <= k < |x| ==> !StartsWith((x + t)[k..], pat)
    ensures Replace(x + t, pat, rep) == x + Replace(t, pat, rep)
    decreases |x|
  {
    if x != [] {
      var s := x + t;
      assert s[0..] == s;
      assert !StartsWith(s, pat);
      assert s[1..] == x[1..] + t;
      forall k | 0 <= k < |x| - 1 ensures !StartsWith((x[1..] + t)[k..], pat) {
        assert (x[1..] + t)[k..] == s[k + 1..];
      }
      ReplaceSkipsPrefix(x[1..], t, pat, rep);
      assert Replace(s, pat, rep) == [s[0]] + Replace(s[1..], pat, rep);
      assert [x[0]] + x[1..] == x;
      assert s[0] == x[0];
    } else {
      assert x + t == t;
    }
  }

  // ---------------------------------------------------------------------
  // split and join
  // ---------------------------------------------------------------------

  /** `s.split(sep)` for a non-empty separator: the pieces between the
      leftmost non-overlapping occurrences of `sep`. */
  function Split(s: string, sep: string): (r: seq<string>)
    requires |sep| > 0
    ensures |r| >= 1
    decreases |s|
  {
    if StartsWith(s, sep) then [""] + Split(s[|sep|..], sep)
    else if s == [] then [""]
    else
      var rest := Split(s[1..], sep);
      [[s[0]] + rest[0]] + rest[1..]
  }

  /** `sep.join(parts)` */
  function Join(parts: seq<string>, sep: string): string
    decreases |parts|
  {
    if parts == [] then ""
    else if |parts| == 1 then parts[0]
    else parts[0] + sep + Join(parts[1..], sep)
  }

  /** A text holding the separator splits into at least two pieces. */
  lemma {:induction false} SplitAtLeastTwo(s: string, sep: string)
    requires |sep| > 0 && Contains(s, sep)
    ensures |Split(s, sep)| >= 2
    decreases |s|
  {
    var j := IndexOf(s, sep).value;
    OccursAtStartsWith(s, sep, 0);
    if !StartsWith(s, sep) {
      assert j >= 1;
      assert s[1..][j - 1..j - 1 + |sep|] == s[j..j + |sep|];
      assert OccursAt(s[1..], sep, j - 1);
      assert Contains(s[1..], sep);
      SplitAtLeastTwo(s[1..], sep);
    }
  }

  /** The first piece of a split at one character is a prefix free of it. */
  lemma {:induction false} SplitFirstPiece(s: string, c: char)
    ensures Split(s, [c])[0] <= s && c !in Split(s, [c])[0]
    decreases |s|
  {
    if !StartsWith(s, [c]) && s != [] {
      assert s[0] != c;
      SplitFirstPiece(s[1..], c);
    }
  }

  /** The text before the first `c` of `s`; all of `s` when `c` does not occur. */
  function UpTo(s: string, c: char): (a: string)
    ensures a <= s && c !in a
    ensures |a| < |s| ==> s[|a|] == c
    decreases |s|
  {
    if s == [] || s[0] == c then [] else [s[0]] + UpTo(s[1..], c)
  }

  /** Split at one character: the first piece is the text before the
      first `c`, and when `c` occurs the second piece is the text between
      the first and the second `c`. */
  lemma SplitUpTo(s: string, c: char)
    ensures Split(s, [c])[0] == UpTo(s, c)
    ensures c in s ==> |Split(s, [c])| >= 2 && |UpTo(s, c)| < |s|
                       && Split(s, [c])[1] == UpTo(s[|UpTo(s, c)| + 1..], c)
  {
    var a := UpTo(s, c);
    if |a| < |s| {
      SplitAtFirst(s, c);
      SplitUpTo(s[|a| + 1..], c);
    } else {
      assert a == s;
      SplitCharAbsent(s, c);
    }
  }

  lemma SplitAtFirst(s: string, c: char)
    requires |UpTo(s, c)| < |s|
    ensures Split(s, [c]) == [UpTo(s, c)] + Split(s[|UpTo(s, c)| + 1..], [c])
  {
    var a := UpTo(s, c);
    var t := s[|a| + 1..];
    assert s == a + [c] + t;
    forall k | 0 <= k < |a| ensures !StartsWith((a + [c] + t)[k..], [c]) {
      assert (a + [c] + t)[k..][0] == a[k];
    }
    SplitPiece(a, [c], t);
  }

  /** A piece in which no occurrence of the separator starts is cut off
      whole at the separator that follows it. */
  lemma {:induction false} SplitPiece(u: string, sep: string, t: string)
    requires |sep| > 0
    requires forall k :: 0 <= k < |u| ==> !StartsWith((u + sep + t)[k..], sep)
    ensures Split(u + sep + t, sep) == [u] + Split(t, sep)
    decreases |u|
  {
    var s := u + sep + t;
    if u == [] {
      assert s == sep + t;
      assert s[|sep|..] == t;
    } else {
      assert s[0..] == s;
      assert s[1..] == u[1..] + sep + t;
      forall k | 0 <= k < |u[1..]| ensures !StartsWith((u[1..] + sep + t)[k..], sep) {
        assert (u[1..] + sep + t)[k..] == s[k + 1..];
      }
      SplitPiece(u[1..], sep, t);
      assert [u[0]] + u[1..] == u;
    }
  }

  /** A text in which no occurrence of the separator starts is one piece. */
  lemma {:induction false} SplitWhole(u: string, sep: string)
    requires |sep| > 0
    requires forall k :: 0 <= k < |u| ==> !StartsWith(u[k..], sep)
    ensures Split(u, sep) == [u]
    decreases |u|
  {
    if u == [] {
      assert !StartsWith(u, sep);
    } else {
      assert u[0..] == u;
      forall k | 0 <= k < |u[1..]| ensures !StartsWith(u[1..][k..], sep) {
        assert u[1..][k..] == u[k + 1..];
      }
      SplitWhole(u[1..], sep);
      assert [u[0]] + u[1..] == u;
    }
  }

  /** A text without the separator character is one piece. */
  lemma SplitCharAbsent(s: string, c: char)
    ensures c !in s ==> Split(s, [c]) == [s]
  {
    if c !in s {
      forall k | 0 <= k < |s| ensures !StartsWith(s[k..], [c]) {
        assert s[k..][0] == s[k];
      }
      SplitWhole(s, [c]);
    }
  }

  /** Splitting at a one-character separator undoes `join` when no part
      holds that character. */
  lemma {:induction false} SplitJoinChar(parts: seq<string>, c: char)
    requires |parts| >= 1
    requires forall i :: 0 <= i < |parts| ==> c !in parts[i]
    ensures Split(Join(parts, [c]), [c]) == parts
    decreases |parts|
  {
    var u := parts[0];
    if |parts| == 1 {
      forall k | 0 <= k < |u| ensures !StartsWith(u[k..], [c]) {
        assert u[k..][0] == u[k];
      }
      SplitWhole(u, [c]);
    } else {
      var t := Join(parts[1..], [c]);
      forall k | 0 <= k < |u| ensures !StartsWith((u + [c] + t)[k..], [c]) {
        assert (u + [c] + t)[k..][0] == u[k];
      }
      SplitPiece(u, [c], t);
      SplitJoinChar(parts[1..], c);
      assert [u] + parts[1..] == parts;
    }
  }

  /** No piece of a split at one character holds that character. */
  lemma {:induction false} SplitCharPieces(s: string, c: char)
    ensures forall i :: 0 <= i < |Split(s, [c])| ==> c !in Split(s, [c])[i]
    decreases |s|
  {
    if s != [] {
      SplitCharPieces(if StartsWith(s, [c]) then s[1..] else s[1..], c);
    }
  }

  /** The pieces of a split hold no character the text does not hold. */
  lemma {:induction false} SplitExcludes(s: string, sep: string, c: char)
    requires |sep| > 0 && c !in s
    ensures forall i :: 0 <= i < |Split(s, sep)| ==> c !in Split(s, sep)[i]
    decreases |s|
  {
    if StartsWith(s, sep) {
      assert forall x :: x in s[|sep|..] ==> x in s;
      SplitExcludes(s[|sep|..], sep, c);
    } else if s != [] {
      assert forall x :: x in s[1..] ==> x in s;
      SplitExcludes(s[1..], sep, c);
    }
  }

  /** A character that occurs neither in the parts nor in the separator
      does not occur in their join. */
  lemma {:induction false} JoinExcludes(parts: seq<string>, sep: string, c: char)
    requires c !in sep
    requires forall i :: 0 <= i < |parts| ==> c !in parts[i]
    ensures c !in Join(parts, sep)
    decreases |parts|
  {
    if |parts| > 1 {
      JoinExcludes(parts[1..], sep, c);
    }
  }

  // ---------------------------------------------------------------------
  // The last comma of a line
  // ---------------------------------------------------------------------

  /** The text after the last `,` of `s`, as the regular expression
      `[,](?!.*[,])(.*?)$` captures it; None when `s` has no comma. */
  function AfterLastComma(s: string): (r: Option<string>)
    ensures r.None? ==> ',' !in s
    ensures r.Some? ==> |r.value| < |s| && s[|s| - |r.value| - 1] == ','
                        && s[|s| - |r.value|..] == r.value && ',' !in r.value
    decreases |s|
  {
    if s == [] then None
    else if s[|s| - 1] == ',' then Some("")
    else
      match AfterLastComma(s[..|s| - 1])
      case None => None
      case Some(t) => Some(t + [s[|s| - 1]])
  }

  // ---------------------------------------------------------------------
  // int() and str() of integers
  // ---------------------------------------------------------------------

  predicate IsDigit(c: char) {
    '0' <= c <= '9'
  }

  function DigitValue(c: char): int {
    c as int - '0' as int
  }

  /** The digit part this model accepts for `int()`: ASCII digits, with
      single underscores allowed between two digits (the other Unicode
      decimal digits `int()` also reads are not modelled). */
  predicate WellFormedDigits(d: string)
    decreases |d|
  {
    |d| > 0 && IsDigit(d[|d| - 1])
    && (|d| == 1
        || WellFormedDigits(d[..|d| - 1])
        || (d[|d| - 2] == '_' && WellFormedDigits(d[..|d| - 2])))
  }

  /** The decimal value of a digit string, underscores ignored. */
  function DigitsValue(d: string): int
    decreases |d|
  {
    if d == [] then 0
    else if d[|d| - 1] == '_' then DigitsValue(d[..|d| - 1])
    else DigitsValue(d[..|d| - 1]) * 10 + DigitValue(d[|d| - 1])
  }

  /** `int(s)` for a decimal string: surrounding whitespace, an optional
      sign, then well-formed digits; None where `int()` raises ValueError. */
  function ParsePyInt(s: string): Option<int> {
    ParseStripped(Strip(s))
  }

  /** `int()` once the surrounding whitespace is gone. */
  function ParseStripped(t: string): Option<int> {
    if |t| > 0 && (t[0] == '+' || t[0] == '-') then
      if WellFormedDigits(t[1..]) then
        Some(if t[0] == '-' then -DigitsValue(t[1..]) else DigitsValue(t[1..]))
      else None
    else if WellFormedDigits(t) then Some(DigitsValue(t))
    else None
  }

  function DigitChar(d: nat): char
    requires d < 10
  {
    ('0' as int + d) as char
  }

  /** `str(n)` for n >= 0 */
  function NatToString(n: nat): (r: string)
    ensures |r| > 0 && forall i :: 0 <= i < |r| ==> IsDigit(r[i])
    decreases n
  {
    if n < 10 then [DigitChar(n)] else NatToString(n / 10) + [DigitChar(n % 10)]
  }

  /** `str(n)` */
  function IntToString(n: int): string {
    if n < 0 then "-" + NatToString(-n) else NatToString(n)
  }

  lemma {:induction false} NatToStringValue(n: nat)
    ensures WellFormedDigits(NatToString(n))
    ensures DigitsValue(NatToString(n)) == n
    decreases n
  {
    var r := NatToString(n);
    if n >= 10 {
      NatToStringValue(n / 10);
      assert r[..|r| - 1] == NatToString(n / 10);
    }
  }

  /** `str(n)` has no surrounding whitespace. */
  lemma IntToStringStripped(n: int)
    ensures Strip(IntToString(n)) == IntToString(n)
  {
    var s := IntToString(n);
    if n < 0 {
      assert s[1..] == NatToString(-n);
      assert IsDigit(s[|s| - 1]);
    }
    StripUnchanged(s);
  }

  /** `int()` of an unsigned digit string. */
  lemma ParseStrippedDigits(t: string)
    requires WellFormedDigits(t) && IsDigit(t[0])
    ensures ParseStripped(t) == Some(DigitsValue(t))
  {}

  /** `int()` of a minus sign followed by digits. */
  lemma ParseStrippedNegative(t: string, d: string)
    requires t == "-" + d && WellFormedDigits(d)
    ensures ParseStripped(t) == Some(-DigitsValue(d))
  {
    assert t[1..] == d;
  }

  /** The canonical text of an integer, read without padding, is that integer. */
  lemma ParseStrippedCanonical(n: int)
    ensures ParseStripped(IntToString(n)) == Some(n)
  {
    if n < 0 {
      NatToStringValue(-n);
      ParseStrippedNegative(IntToString(n), NatToString(-n));
    } else {
      NatToStringValue(n);
      ParseStrippedDigits(IntToString(n));
    }
  }

  /** `int(str(n)) == n`: the canonical text of an integer parses back to it. */
  lemma ParsePyIntRoundTrip(n: int)
    ensures ParsePyInt(IntToString(n)) == Some(n)
  {
    IntToStringStripped(n);
    ParseStrippedCanonical(n);
  }
}
