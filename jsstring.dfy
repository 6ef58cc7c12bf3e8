/** The JavaScript string and array built-ins the core relies on, over
    strings as sequences of characters. */
module JsString {

  /** The WhiteSpace and LineTerminator code points of ECMAScript, which is
      the set `String.prototype.trim` removes. */
  predicate IsWhitespace(c: char) {
    || c == '\t' || c == '\n' || c == '\U{000B}' || c == '\U{000C}' || c == '\r'
    || c == ' ' || c == '\U{00A0}' || c == '\U{1680}' || '\U{2000}' <= c <= '\U{200A}'
    || c == '\U{2028}' || c == '\U{2029}' || c == '\U{202F}' || c == '\U{205F}'
    || c == '\U{3000}' || c == '\U{FEFF}'
  }

  predicate AllWhitespace(s: string) {
    forall k | 0 <= k < |s| :: IsWhitespace(s[k])
  }

  /** Number of white-space characters at the start of `s`. */
  function LeadingSpace(s: string): (n: nat)
    ensures n <= |s|
    ensures AllWhitespace(s[..n])
    ensures n < |s| ==> !IsWhitespace(s[n])
  {
    if s == [] || !IsWhitespace(s[0]) then 0 else 1 + LeadingSpace(s[1..])
  }

  /** Number of white-space characters at the end of `s`. */
  function TrailingSpace(s: string): (n: nat)
    ensures n <= |s|
    ensures AllWhitespace(s[|s| - n..])
    ensures n < |s| ==> !IsWhitespace(s[|s| - n - 1])
  {
    if s == [] || !IsWhitespace(s[|s| - 1]) then 0 else 1 + TrailingSpace(s[..|s| - 1])
  }

  /** `String.prototype.trim`: the infix of `s` that starts after its
      leading white space, neither starts nor ends with white space, and
      is followed by white space only. */
  function Trim(s: string): (r: string)
    ensures |r| <= |s|
    ensures r != [] ==> !IsWhitespace(r[0]) && !IsWhitespace(r[|r| - 1])
    ensures LeadingSpace(s) + |r| <= |s|
    ensures s[LeadingSpace(s)..LeadingSpace(s) + |r|] == r
    ensures AllWhitespace(s[LeadingSpace(s) + |r|..])
  {
    var i := LeadingSpace(s);
    var rest := s[i..];
    var j := TrailingSpace(rest);
    var r := rest[..|rest| - j];
    assert s[i..i + |r|] == r;
    assert s[i + |r|..] == rest[|rest| - j..];
    assert r != [] ==> r[0] == s[i] && r[|r| - 1] == rest[|rest| - j - 1];
    r
  }

  /** `t` occurs in `s` starting at position `i`. */
  predicate OccursAt(s: string, t: string, i: nat) {
    i + |t| <= |s| && s[i..i + |t|] == t
  }

  /** Trimming a suffix of `s` leaves a piece of `s`. */
  lemma TrimSuffixOccurs(s: string, k: nat)
    requires k <= |s|
    ensures exists i :: OccursAt(s, Trim(s[k..]), i)
  {
    var rest := s[k..];
    var r := Trim(rest);
    var i := LeadingSpace(rest);
    assert s[k + i..k + i + |r|] == rest[i..i + |r|];
    assert OccursAt(s, r, k + i);
  }

  predicate IsAsciiUpper(c: char) {
    'A' <= c <= 'Z'
  }

  function LowerChar(c: char): (d: char)
    ensures !IsAsciiUpper(d)
    ensures !IsAsciiUpper(c) ==> d == c
  {
    if IsAsciiUpper(c) then (c as int + 32) as char else c
  }

  /** `String.prototype.toLowerCase`, restricted to ASCII letters. */
  function ToLower(s: string): (r: string)
    ensures |r| == |s|
    ensures forall k | 0 <= k < |s| :: r[k] == LowerChar(s[k])
  {
    seq(|s|, k requires 0 <= k < |s| => LowerChar(s[k]))
  }

  /** Position of the first `c` in `s`, or `|s|` when there is none. */
  function IndexOf(s: string, c: char): (i: nat)
    ensures i <= |s|
    ensures i < |s| ==> s[i] == c
    ensures c !in s[..i]
  {
    if s == [] || s[0] == c then 0 else 1 + IndexOf(s[1..], c)
  }

  /** `s.replace(c, "")` with a one-character string pattern: only the
      first occurrence of `c` is removed. */
  function RemoveFirst(s: string, c: char): (r: string)
    ensures |r| == if c in s then |s| - 1 else |s|
  {
    var i := IndexOf(s, c);
    if i == |s| then s else s[..i] + s[i + 1..]
  }

  /** Removing leaves everything else in order: the characters before the
      first `c`, then those after it; a string without `c` is unchanged. */
  lemma RemoveFirstSpec(s: string, c: char)
    ensures c !in s ==> RemoveFirst(s, c) == s
    ensures c in s ==> exists i | 0 <= i < |s| ::
      && s[i] == c && c !in s[..i] && RemoveFirst(s, c) == s[..i] + s[i + 1..]
  {
    var i := IndexOf(s, c);
    assert i == |s| ==> s[..i] == s;
  }

  /** `s.slice(from, to)` for `0 <= from <= to`: both ends are clamped to
      the length of `s`. */
  function Slice(s: string, from: nat, to: nat): (r: string)
    requires from <= to
    ensures |r| <= to - from
    ensures to <= |s| ==> r == s[from..to]
    ensures from < |s| < to ==> r == s[from..]
    ensures |s| <= from ==> r == []
  {
    if |s| <= from then [] else if |s| <= to then s[from..] else s[from..to]
  }

  /** `Array.prototype.join`: the parts in order with `sep` between
      neighbours. */
  function Join(parts: seq<string>, sep: string): string
  {
    if |parts| == 0 then ""
    else if |parts| == 1 then parts[0]
    else Join(parts[..|parts| - 1], sep) + sep + parts[|parts| - 1]
  }

  /** Sum of the lengths of `parts`. */
  function TotalLength(parts: seq<string>): nat
  {
    if parts == [] then 0 else TotalLength(parts[..|parts| - 1]) + |parts[|parts| - 1]|
  }

  /** Where part `i` starts in the joined string: the parts before it,
      each followed by one separator. */
  function Offset(parts: seq<string>, sep: string, i: nat): nat
    requires i <= |parts|
  {
    if i == 0 then 0 else Offset(parts, sep, i - 1) + |parts[i - 1]| + |sep|
  }

  /** A join of n parts holds their characters and n - 1 separators. */
  lemma {:induction false} JoinLength(parts: seq<string>, sep: string)
    requires parts != []
    ensures |Join(parts, sep)| == TotalLength(parts) + (|parts| - 1) * |sep|
  {
    if |parts| > 1 {
      var init := parts[..|parts| - 1];
      JoinLength(init, sep);
      assert init[..|init| - 1] == parts[..|parts| - 1][..|init| - 1];
      calc {
        |Join(parts, sep)|;
        |Join(init, sep)| + |sep| + |parts[|parts| - 1]|;
        TotalLength(init) + (|init| - 1) * |sep| + |sep| + |parts[|parts| - 1]|;
        { assert (|init| - 1) * |sep| + |sep| == (|parts| - 1) * |sep|; }
        TotalLength(parts) + (|parts| - 1) * |sep|;
      }
    }
  }

  /** The whole layout of a join: its length, each part at its offset and
      the separator after every part but the last. */
  lemma {:induction false} JoinLayout(parts: seq<string>, sep: string, i: nat)
    requires i < |parts|
    ensures var whole, a := Join(parts, sep), Offset(parts, sep, i);
      && |whole| == TotalLength(parts) + (|parts| - 1) * |sep|
      && a + |parts[i]| <= |whole|
      && whole[a..a + |parts[i]|] == parts[i]
      && (i + 1 < |parts| ==>
            && a + |parts[i]| + |sep| == Offset(parts, sep, i + 1) <= |whole|
            && whole[a + |parts[i]|..Offset(parts, sep, i + 1)] == sep)
  {
    JoinLength(parts, sep);
    JoinPartAt(parts, sep, i);
  }

  /** Offsets of the first parts do not depend on the parts after them. */
  lemma OffsetPrefix(parts: seq<string>, sep: string, k: nat, i: nat)
    requires i <= k <= |parts|
    ensures Offset(parts[..k], sep, i) == Offset(parts, sep, i)
  {
  }

  /** The join ends with the last part, right after that part's offset. */
  lemma {:induction false} JoinEndsAtLast(parts: seq<string>, sep: string)
    requires parts != []
    ensures |Join(parts, sep)| == Offset(parts, sep, |parts| - 1) + |parts[|parts| - 1]|
  {
    var n := |parts|;
    if n > 1 {
      var init := parts[..n - 1];
      JoinEndsAtLast(init, sep);
      OffsetPrefix(parts, sep, n - 1, n - 2);
    }
  }

  /** The join of n >= 2 parts is the join of the first n - 1, a
      separator and the last part. */
  lemma JoinSplit(parts: seq<string>, sep: string)
    requires |parts| >= 2
    ensures var j, whole := Join(parts[..|parts| - 1], sep), Join(parts, sep);
      && |whole| == |j| + |sep| + |parts[|parts| - 1]|
      && whole[..|j|] == j
      && whole[|j|..|j| + |sep|] == sep
      && whole[|j| + |sep|..] == parts[|parts| - 1]
  {
  }

  /** A slice inside a known prefix is the same slice of the prefix. */
  lemma SliceInPrefix(s: string, t: string, a: nat, b: nat)
    requires |t| <= |s| && s[..|t|] == t && a <= b <= |t|
    ensures s[a..b] == t[a..b]
  {
    forall k | a <= k < b
      ensures s[k] == t[k]
    {
      assert s[..|t|][k] == s[k];
    }
    assert s[a..b] == t[a..b];
  }

  /** Part `i` occupies its offset in the join, in order, and a separator
      follows every part but the last. */
  lemma {:induction false} JoinPartAt(parts: seq<string>, sep: string, i: nat)
    requires i < |parts|
    decreases |parts|, 1
    ensures Offset(parts, sep, i) + |parts[i]| <= |Join(parts, sep)|
    ensures Join(parts, sep)[Offset(parts, sep, i)..Offset(parts, sep, i) + |parts[i]|] == parts[i]
    ensures i + 1 < |parts| ==>
      Offset(parts, sep, i + 1) == Offset(parts, sep, i) + |parts[i]| + |sep| <= |Join(parts, sep)|
    ensures i + 1 < |parts| ==>
      Join(parts, sep)[Offset(parts, sep, i) + |parts[i]|..Offset(parts, sep, i + 1)] == sep
  {
    if |parts| == 1 {
    } else if i == |parts| - 1 {
      LastPartAt(parts, sep);
    } else {
      EarlierPartAt(parts, sep, i);
    }
  }

  /** The last of n >= 2 parts follows the join of the others and a
      separator. */
  lemma {:induction false} LastPartAt(parts: seq<string>, sep: string)
    requires |parts| >= 2
    ensures var n, whole := |parts|, Join(parts, sep);
      && Offset(parts, sep, n - 1) + |parts[n - 1]| == |whole|
      && whole[Offset(parts, sep, n - 1)..] == parts[n - 1]
  {
    var n := |parts|;
    JoinSplit(parts, sep);
    JoinEndsAtLast(parts[..n - 1], sep);
    OffsetPrefix(parts, sep, n - 1, n - 2);
  }

  /** A part before the last sits where it sits in the join without the
      last part, and so does the separator after it. */
  lemma {:induction false} EarlierPartAt(parts: seq<string>, sep: string, i: nat)
    requires i + 1 < |parts|
    decreases |parts|, 0
    ensures var a, whole := Offset(parts, sep, i), Join(parts, sep);
      && Offset(parts, sep, i + 1) == a + |parts[i]| + |sep| <= |whole|
      && whole[a..a + |parts[i]|] == parts[i]
      && whole[a + |parts[i]|..Offset(parts, sep, i + 1)] == sep
  {
    var n := |parts|;
    var init := parts[..n - 1];
    var j := Join(init, sep);
    var whole := Join(parts, sep);
    JoinSplit(parts, sep);
    assert init[i] == parts[i];
    JoinPartAt(init, sep, i);
    OffsetPrefix(parts, sep, n - 1, i);
    var a := Offset(parts, sep, i);
    var b := a + |parts[i]|;
    assert j[a..b] == parts[i];
    SliceInPrefix(whole, j, a, b);
    assert whole[a..b] == parts[i];
    if i + 1 < n - 1 {
      OffsetPrefix(parts, sep, n - 1, i + 1);
      assert j[b..Offset(parts, sep, i + 1)] == sep;
      SliceInPrefix(whole, j, b, Offset(parts, sep, i + 1));
    } else {
      JoinEndsAtLast(init, sep);
      assert b == |j|;
    }
  }
}
