/** String operations with the semantics JavaScript gives them: `Array.prototype.join`,
    `String.prototype.split` with a string separator, the `\s` character class and
    `String.prototype.trim`. A Dafny `char` stands for one UTF-16 code unit. */
module Text {

  datatype Option<T> = None | Some(value: T)

  /** Concatenation regroups freely; stated once so long proofs need not rediscover it. */
  lemma AppendAssoc<T>(a: seq<T>, b: seq<T>, c: seq<T>)
    ensures (a + b) + c == a + (b + c)
  {
  }

  /** Sum of the lengths of `parts`. */
  function TotalLength(parts: seq<string>): nat
  {
    if |parts| == 0 then 0 else |parts[0]| + TotalLength(parts[1..])
  }

  lemma {:induction false} TotalLengthAppend(a: seq<string>, b: seq<string>)
    ensures TotalLength(a + b) == TotalLength(a) + TotalLength(b)
  {
    if |a| == 0 {
      assert a + b == b;
    } else {
      assert (a + b)[1..] == a[1..] + b;
      TotalLengthAppend(a[1..], b);
    }
  }

  /** `parts.join(sep)`: the parts with `sep` between neighbours and nowhere else. */
  function Join(parts: seq<string>, sep: string): (r: string)
    ensures |parts| == 0 ==> r == ""
    ensures |parts| == 1 ==> r == parts[0]
  {
    if |parts| == 0 then ""
    else if |parts| == 1 then parts[0]
    else parts[0] + sep + Join(parts[1..], sep)
  }

  /** The parts one after the other (a join with the empty separator). */
  function Concat(parts: seq<string>): string
  {
    if |parts| == 0 then "" else parts[0] + Concat(parts[1..])
  }

  lemma ConcatOne(x: string)
    ensures Concat([x]) == x
  {
    assert [x][1..] == [];
    assert x + "" == x;
  }

  /** A join is as long as its parts plus one separator between each two. */
  lemma {:induction false} JoinLength(parts: seq<string>, sep: string)
    requires |parts| > 0
    ensures |Join(parts, sep)| == TotalLength(parts) + (|parts| - 1) * |sep|
  {
    if |parts| > 1 {
      JoinLength(parts[1..], sep);
    }
  }

  /** Joining two non-empty lists is joining their joins. */
  lemma {:induction false} JoinAppend(a: seq<string>, b: seq<string>, sep: string)
    requires |a| > 0 && |b| > 0
    ensures Join(a + b, sep) == Join(a, sep) + sep + Join(b, sep)
  {
    assert (a + b)[1..] == a[1..] + b;
    if |a| > 1 {
      JoinAppend(a[1..], b, sep);
    }
  }

  lemma {:induction false} ConcatAppend(a: seq<string>, b: seq<string>)
    ensures Concat(a + b) == Concat(a) + Concat(b)
  {
    if |a| == 0 {
      assert a + b == b;
    } else {
      assert (a + b)[1..] == a[1..] + b;
      ConcatAppend(a[1..], b);
    }
  }

  /** `sep` occurs in `s` starting at index `k`. */
  predicate OccursAt(s: string, sep: string, k: nat)
  {
    k + |sep| <= |s| && s[k..k + |sep|] == sep
  }

  /** `s.indexOf(sep, from)`: the leftmost occurrence at or after `from`. */
  function Find(s: string, sep: string, from: nat): (r: Option<nat>)
    ensures r.Some? ==> from <= r.value && OccursAt(s, sep, r.value)
    ensures r.Some? ==> forall k :: from <= k < r.value ==> !OccursAt(s, sep, k)
    ensures r.None? ==> forall k :: from <= k ==> !OccursAt(s, sep, k)
    decreases |s| - from
  {
    if from + |sep| > |s| then None
    else if s[from..from + |sep|] == sep then Some(from)
    else Find(s, sep, from + 1)
  }

  /** `s.split(sep)` for a non-empty string separator: cut at each leftmost,
      non-overlapping occurrence. The empty string splits into `[""]`. */
  function Split(s: string, sep: string): (parts: seq<string>)
    requires |sep| > 0
    ensures |parts| > 0
    ensures Join(parts, sep) == s
    ensures forall i :: 0 <= i < |parts| ==> Find(parts[i], sep, 0).None?
    ensures |parts| > 1 ==> Find(s, sep, 0) == Some(|parts[0]|)
    ensures LeftmostCuts(s, sep, parts)
    decreases |s|
  {
    match Find(s, sep, 0)
    case None => [s]
    case Some(k) =>
      var rest := Split(s[k + |sep|..], sep);
      assert s == s[..k] + sep + s[k + |sep|..] by {
        assert s[k..k + |sep|] == sep;
        assert s == s[..k] + s[k..k + |sep|] + s[k + |sep|..];
      }
      NoOccurrenceBefore(s, sep, k);
      var parts := [s[..k]] + rest;
      assert parts[1..] == rest;
      assert forall i :: 1 <= i < |parts| ==> parts[i] == rest[i - 1];
      parts
  }

  /** `parts` cuts `s` at each leftmost, non-overlapping occurrence of `sep`: the
      first part is all of `s` when `sep` does not occur, and otherwise runs up
      to the first occurrence, with the rest cutting what follows it. */
  predicate LeftmostCuts(s: string, sep: string, parts: seq<string>)
    requires |sep| > 0
    decreases |parts|
  {
    && |parts| > 0
    && if |parts| == 1 then parts[0] == s && Find(s, sep, 0).None?
       else
         && Find(s, sep, 0) == Some(|parts[0]|)
         && |parts[0]| + |sep| <= |s|
         && parts[0] == s[..|parts[0]|]
         && LeftmostCuts(s[|parts[0]| + |sep|..], sep, parts[1..])
  }

  /** Leftmost cutting leaves no choice: `Split` is the only sequence of parts
      that cuts `s` this way. */
  lemma {:induction false} LeftmostCutsUnique(s: string, sep: string, p: seq<string>, q: seq<string>)
    requires |sep| > 0 && LeftmostCuts(s, sep, p) && LeftmostCuts(s, sep, q)
    ensures p == q
    decreases |p|
  {
    if |p| > 1 && |q| > 1 {
      assert |p[0]| == |q[0]|;
      LeftmostCutsUnique(s[|p[0]| + |sep|..], sep, p[1..], q[1..]);
      assert p == [p[0]] + p[1..] && q == [q[0]] + q[1..];
    }
  }

  /** A prefix that ends before the leftmost occurrence holds none. */
  lemma NoOccurrenceBefore(s: string, sep: string, k: nat)
    requires |sep| > 0 && k <= |s| && forall j :: 0 <= j < k ==> !OccursAt(s, sep, j)
    ensures Find(s[..k], sep, 0).None?
  {
    var r := Find(s[..k], sep, 0);
    if r.Some? {
      var j := r.value;
      assert OccursAt(s[..k], sep, j);
      assert s[..k][j..j + |sep|] == s[j..j + |sep|];
      assert j < k && OccursAt(s, sep, j);
    }
  }

  /** JavaScript's `\s` class, which is also the set `trim` removes: the WhiteSpace
      and LineTerminator code points of ECMAScript. */
  predicate IsSpace(c: char)
  {
    || c == '\t' || c == '\n' || c == '\U{B}' || c == '\U{C}' || c == '\r' || c == ' '
    || c == '\U{A0}' || c == '\U{1680}' || ('\U{2000}' <= c <= '\U{200A}')
    || c == '\U{2028}' || c == '\U{2029}' || c == '\U{202F}' || c == '\U{205F}'
    || c == '\U{3000}' || c == '\U{FEFF}'
  }

  /** `s.trimStart()`: the longest suffix of `s` that does not start with a space. */
  function TrimStart(s: string): (r: string)
    ensures |r| <= |s| && r == s[|s| - |r|..]
    ensures forall i :: 0 <= i < |s| - |r| ==> IsSpace(s[i])
    ensures |r| == 0 || !IsSpace(r[0])
  {
    if |s| > 0 && IsSpace(s[0]) then TrimStart(s[1..]) else s
  }

  /** `s.trimEnd()`: the longest prefix of `s` that does not end with a space. */
  function TrimEnd(s: string): (r: string)
    ensures |r| <= |s| && r == s[..|r|]
    ensures forall i :: |r| <= i < |s| ==> IsSpace(s[i])
    ensures |r| == 0 || !IsSpace(r[|r| - 1])
  {
    if |s| > 0 && IsSpace(s[|s| - 1]) then TrimEnd(s[..|s| - 1]) else s
  }

  /** `s.trim()`: `s` with the white space at both ends cut off, and no more. */
  function Trim(s: string): (r: string)
    ensures |r| == 0 || (!IsSpace(r[0]) && !IsSpace(r[|r| - 1]))
    ensures exists a, b :: 0 <= a <= b <= |s| && r == s[a..b] && AllSpace(s[..a]) && AllSpace(s[b..])
  {
    var t := TrimStart(s);
    var r := TrimEnd(t);
    TrimStartCuts(s);
    TrimEndCuts(t);
    SliceOfSlices(s, t, r);
    r
  }

  /** A prefix `r` of a suffix `t` of `s` is a slice of `s`. */
  lemma SliceOfSlices(s: string, t: string, r: string)
    requires |t| <= |s| && t == s[|s| - |t|..] && AllSpace(s[..|s| - |t|])
    requires |r| <= |t| && r == t[..|r|] && AllSpace(t[|r|..])
    ensures exists a, b :: 0 <= a <= b <= |s| && r == s[a..b] && AllSpace(s[..a]) && AllSpace(s[b..])
  {
    var a := |s| - |t|;
    SliceOfSuffix(s, a, |r|);
    assert r == s[a..a + |r|] && AllSpace(s[a + |r|..]);
  }

  lemma SliceOfSuffix(s: string, a: nat, n: nat)
    requires a + n <= |s|
    ensures s[a..][..n] == s[a..a + n] && s[a..][n..] == s[a + n..]
  {
  }

  lemma TrimStartCuts(s: string)
    ensures TrimStart(s) == s[|s| - |TrimStart(s)|..] && AllSpace(s[..|s| - |TrimStart(s)|])
  {
  }

  lemma TrimEndCuts(t: string)
    ensures TrimEnd(t) == t[..|TrimEnd(t)|] && AllSpace(t[|TrimEnd(t)|..])
  {
    var n := |TrimEnd(t)|;
    forall i | 0 <= i < |t| - n ensures IsSpace(t[n..][i]) {
      assert t[n..][i] == t[n + i];
    }
  }

  /** Every character of `t` is white space. */
  predicate AllSpace(t: string)
  {
    forall i :: 0 <= i < |t| ==> IsSpace(t[i])
  }

  /** The single-character classes used by the ingestion code's regular expressions. */
  datatype CharClass =
    | NonQuote           // [^"]
    | Whitespace         // \s
    | Digit              // \d
    | NonSentenceEnd     // [^.!?]
    | SentenceEnd        // [.!?]
    | NonLineTerminator  // .  (any code unit except \n, \r, U+2028, U+2029)
    | Newline            // \n

  predicate IsLineTerminator(c: char)
  {
    c == '\n' || c == '\r' || c == '\U{2028}' || c == '\U{2029}'
  }

  predicate IsSentenceEnd(c: char)
  {
    c == '.' || c == '!' || c == '?'
  }

  predicate InClass(c: char, k: CharClass)
  {
    match k
    case NonQuote => c != '"'
    case Whitespace => IsSpace(c)
    case Digit => '0' <= c <= '9'
    case NonSentenceEnd => !IsSentenceEnd(c)
    case SentenceEnd => IsSentenceEnd(c)
    case NonLineTerminator => !IsLineTerminator(c)
    case Newline => c == '\n'
  }

  /** Every character of `t` is in class `k`. */
  predicate AllInClass(t: string, k: CharClass)
  {
    forall i :: 0 <= i < |t| ==> InClass(t[i], k)
  }

  /** Length of the longest run of `k`-characters starting at `i` (what a greedy
      `k+` or `k*` consumes there); `RunIsMaximal` states what it is. */
  function Run(s: string, i: nat, k: CharClass): (n: nat)
    requires i <= |s|
    ensures i + n <= |s|
    decreases |s| - i
  {
    if i < |s| && InClass(s[i], k) then 1 + Run(s, i + 1, k) else 0
  }

  /** The run consists of `k`-characters and stops at the end or at a character
      outside `k`. */
  lemma {:induction false} RunIsMaximal(s: string, i: nat, k: CharClass)
    requires i <= |s|
    ensures forall j :: i <= j < i + Run(s, i, k) ==> InClass(s[j], k)
    ensures i + Run(s, i, k) == |s| || !InClass(s[i + Run(s, i, k)], k)
    decreases |s| - i
  {
    if i < |s| && InClass(s[i], k) {
      RunIsMaximal(s, i + 1, k);
    }
  }
}
