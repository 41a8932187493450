/** String operations with the semantics of the JavaScript and Rust library calls the program uses. */
module Text {
  import opened Common

  /** The whitespace that `String.prototype.trim` and `str::trim` strip (the ASCII and Latin-1 part). */
  predicate IsWhitespace(c: char) {
    c == ' ' || c == '\t' || c == '\n' || c == '\r' || c == '\U{000B}' || c == '\U{000C}' || c == '\U{00A0}'
  }

  /** Drops leading whitespace. */
  function TrimStart(s: string): string
  {
    if s != [] && IsWhitespace(s[0]) then TrimStart(s[1..]) else s
  }

  /** Drops trailing whitespace. */
  function TrimEnd(s: string): string
  {
    if s != [] && IsWhitespace(s[|s| - 1]) then TrimEnd(s[..|s| - 1]) else s
  }

  /** `s.trim()`: a contiguous slice of `s`, only whitespace cut off either end. */
  function Trim(s: string): string
  {
    TrimEnd(TrimStart(s))
  }

  /** Every character is whitespace. */
  predicate AllWhitespace(s: string) {
    forall i :: 0 <= i < |s| ==> IsWhitespace(s[i])
  }

  /** `TrimStart` keeps a suffix that does not start with whitespace and cuts only whitespace. */
  lemma {:induction false} TrimStartShape(s: string)
    ensures |TrimStart(s)| <= |s| && TrimStart(s) == s[|s| - |TrimStart(s)|..]
    ensures TrimStart(s) != [] ==> !IsWhitespace(TrimStart(s)[0])
    ensures AllWhitespace(s[..|s| - |TrimStart(s)|])
  {
    if s != [] && IsWhitespace(s[0]) {
      TrimStartShape(s[1..]);
      var r := TrimStart(s[1..]);
      assert s[..|s| - |r|] == [s[0]] + s[1..][..|s| - 1 - |r|];
      assert s[1..][|s| - 1 - |r|..] == s[|s| - |r|..];
    }
  }

  /** `TrimEnd` keeps a prefix that does not end with whitespace and cuts only whitespace. */
  lemma {:induction false} TrimEndShape(s: string)
    ensures |TrimEnd(s)| <= |s| && TrimEnd(s) == s[..|TrimEnd(s)|]
    ensures TrimEnd(s) != [] ==> !IsWhitespace(TrimEnd(s)[|TrimEnd(s)| - 1])
    ensures AllWhitespace(s[|TrimEnd(s)|..])
  {
    if s != [] && IsWhitespace(s[|s| - 1]) {
      TrimEndShape(s[..|s| - 1]);
      var r := TrimEnd(s[..|s| - 1]);
      assert s[|r|..] == s[..|s| - 1][|r|..] + [s[|s| - 1]];
      assert s[..|s| - 1][..|r|] == s[..|r|];
    }
  }

  /** `s.trim().is_empty()` holds exactly for all-whitespace strings. */
  lemma TrimEmptyIffBlank(s: string)
    ensures Trim(s) == [] <==> AllWhitespace(s)
  {
    TrimStartShape(s);
    var t := TrimStart(s);
    TrimEndShape(t);
    if t == [] {
      assert s[..|s|] == s;
    } else {
      var e := |TrimEnd(t)|;
      assert s[|s| - |t|] == t[0];
      assert e < |t| ==> t[e..][0] == t[e];
    }
  }

  /** A string that neither starts nor ends with whitespace is its own trim. */
  lemma TrimOfTrimmed(s: string)
    requires s != [] ==> !IsWhitespace(s[0]) && !IsWhitespace(s[|s| - 1])
    ensures Trim(s) == s
  {
  }

  /** Trimming is idempotent. */
  lemma TrimIdempotent(s: string)
    ensures Trim(Trim(s)) == Trim(s)
  {
    var t := Trim(s);
    var u := TrimStart(s);
    TrimStartShape(s);
    TrimEndShape(u);
    if t != [] {
      assert t[0] == u[0];
    }
    TrimOfTrimmed(t);
  }

  /** `pat` occurs in `s` at index `i`. */
  predicate OccursAt(s: string, pat: string, i: int) {
    0 <= i && i + |pat| <= |s| && s[i..i + |pat|] == pat
  }

  /** The first index at or after `from` where `pat` occurs (`indexOf` / `find`). */
  function IndexFrom(s: string, pat: string, from: nat): (r: Option<nat>)
    decreases |s| - from
    ensures r.Some? ==> from <= r.value && OccursAt(s, pat, r.value)
    ensures r.Some? ==> forall k :: from <= k < r.value ==> !OccursAt(s, pat, k)
    ensures r.None? ==> forall k :: from <= k ==> !OccursAt(s, pat, k)
  {
    if from + |pat| > |s| then None
    else if s[from..from + |pat|] == pat then Some(from)
    else IndexFrom(s, pat, from + 1)
  }

  function IndexOf(s: string, pat: string): (r: Option<nat>)
    ensures r.Some? ==> OccursAt(s, pat, r.value) && forall k :: 0 <= k < r.value ==> !OccursAt(s, pat, k)
    ensures r.None? ==> Lacks(s, pat)
  {
    IndexFrom(s, pat, 0)
  }

  /** The first occurrence of `pat` is right after a prefix when no occurrence starts inside it. */
  lemma IndexOfAfterPrefix(pre: string, pat: string, rest: string)
    requires forall k :: 0 <= k < |pre| ==> !OccursAt(pre + pat, pat, k)
    ensures IndexOf(pre + pat + rest, pat) == Some(|pre|)
  {
    var s := pre + pat + rest;
    assert s[|pre|..|pre| + |pat|] == pat;
    assert OccursAt(s, pat, |pre|);
    forall k | 0 <= k < |pre|
      ensures !OccursAt(s, pat, k)
    {
      assert !OccursAt(pre + pat, pat, k);
      assert k + |pat| <= |pre + pat|;
      assert s[k..k + |pat|] == (pre + pat)[k..k + |pat|];
    }
  }

  /** `s` has no occurrence of `pat`. */
  predicate Lacks(s: string, pat: string) {
    forall k :: 0 <= k <= |s| ==> !OccursAt(s, pat, k)
  }

  /** `s.startsWith(p)`. */
  predicate StartsWith(s: string, p: string) {
    |p| <= |s| && s[..|p|] == p
  }

  /** A string starts with its own head. */
  lemma StartsWithHead(p: string, rest: string)
    ensures StartsWith(p + rest, p)
  {
    assert (p + rest)[..|p|] == p;
  }

  /** A string does not start with a prefix whose first character differs from its own. */
  lemma NotStartsWithOther(s: string, p: string)
    requires s != [] && p != [] && s[0] != p[0]
    ensures !StartsWith(s, p)
  {
    if |p| <= |s| {
      assert s[..|p|][0] == s[0];
    }
  }

  /** `s.replace(pat, rep)` with a string pattern: only the first occurrence is replaced. */
  function ReplaceFirst(s: string, pat: string, rep: string): (r: string)
    ensures IndexOf(s, pat).None? ==> r == s
    ensures IndexOf(s, pat).Some? ==>
      var i := IndexOf(s, pat).value; |r| == |s| - |pat| + |rep| && r[..i] == s[..i] && r[i..] == rep + s[i + |pat|..]
  {
    match IndexOf(s, pat)
    case None => s
    case Some(i) => s[..i] + rep + s[i + |pat|..]
  }

  /** `s.split(sep)[0]`: the text before the first separator, or all of `s`. */
  function FirstField(s: string, sep: string): string
  {
    match IndexOf(s, sep)
    case None => s
    case Some(i) => s[..i]
  }

  /** `s.split(sep)[1]`: the text between the first and the second separator; `None` (JavaScript's
      `undefined`) when `s` has no separator. */
  function SecondField(s: string, sep: string): Option<string>
    requires sep != []
  {
    match IndexOf(s, sep)
    case None => None
    case Some(i) => Some(FirstField(s[i + |sep|..], sep))
  }

  /** `s.split(c)` with a one-character separator. */
  function SplitChar(s: string, c: char): (r: seq<string>)
    decreases |s|
    ensures |r| >= 1
    ensures forall k :: 0 <= k < |r| ==> c !in r[k]
  {
    if c in s then
      var i := FirstIndexOf(s, c);
      [s[..i]] + SplitChar(s[i + 1..], c)
    else [s]
  }

  /** The index of the first `c` in `s`. */
  function FirstIndexOf(s: string, c: char): (i: nat)
    requires c in s
    ensures i < |s| && s[i] == c && c !in s[..i]
  {
    if s[0] == c then 0 else 1 + FirstIndexOf(s[1..], c)
  }

  /** In a string made of a `c`-free head, `c` and a tail, the first `c` ends the head. */
  lemma FirstIndexAfterHead(a: string, c: char, b: string)
    requires c !in a
    ensures c in a + [c] + b
    ensures FirstIndexOf(a + [c] + b, c) == |a|
    ensures (a + [c] + b)[..|a|] == a && (a + [c] + b)[|a| + 1..] == b
  {
    var s := a + [c] + b;
    assert s[|a|] == c;
    assert forall j :: 0 <= j < |a| ==> s[j] == a[j];
    assert s[..|a|] == a;
    assert s[|a| + 1..] == b;
  }

  /** Splitting a string that has the separator after a separator-free head yields the head first. */
  lemma SplitCharCons(a: string, c: char, b: string)
    requires c !in a
    ensures SplitChar(a + [c] + b, c) == [a] + SplitChar(b, c)
  {
    FirstIndexAfterHead(a, c, b);
  }

  /** A string without the separator splits into itself alone. */
  lemma SplitCharNone(s: string, c: char)
    requires c !in s
    ensures SplitChar(s, c) == [s]
  {
  }

  /** A character absent from `s` is absent from every part of its split. */
  lemma {:induction false} SplitCharLacks(s: string, c: char, d: char)
    requires d !in s
    ensures forall k :: 0 <= k < |SplitChar(s, c)| ==> d !in SplitChar(s, c)[k]
    decreases |s|
  {
    if c in s {
      var i := FirstIndexOf(s, c);
      assert forall x :: x in s[i + 1..] ==> x in s;
      assert forall x :: x in s[..i] ==> x in s;
      SplitCharLacks(s[i + 1..], c, d);
    }
  }

  /** `path.split(/[\\\/]/)`: the segments between backslashes and slashes. */
  function PathSegments(path: string): seq<string> {
    SplitChar(ReplaceChars(path, {'/'}, '\\'), '\\')
  }

  /** No segment holds a separator. */
  lemma PathSegmentsClean(path: string)
    ensures |PathSegments(path)| >= 1
    ensures forall k :: 0 <= k < |PathSegments(path)| ==>
      '\\' !in PathSegments(path)[k] && '/' !in PathSegments(path)[k]
  {
    var r := ReplaceChars(path, {'/'}, '\\');
    assert '/' !in r;
    SplitCharLacks(r, '\\', '/');
  }

  /** Replacing `/` changes nothing in a string without one. */
  lemma NoSlashUnchanged(s: string)
    requires '/' !in s
    ensures ReplaceChars(s, {'/'}, '\\') == s
  {
  }

  lemma SplitJoined3(a: string, b: string, c: string)
    requires '\\' !in a && '\\' !in b && '\\' !in c
    ensures SplitChar(a + "\\" + b + "\\" + c, '\\') == [a, b, c]
  {
    assert a + "\\" + b + "\\" + c == a + ['\\'] + (b + ['\\'] + c);
    SplitCharCons(a, '\\', b + ['\\'] + c);
    SplitCharCons(b, '\\', c);
  }

  /** The segments of a string built from separator-free segments joined by backslashes are those
      segments. */
  lemma SegmentsOfJoined3(a: string, b: string, c: string)
    requires '\\' !in a && '/' !in a && '\\' !in b && '/' !in b && '\\' !in c && '/' !in c
    ensures PathSegments(a + "\\" + b + "\\" + c) == [a, b, c]
  {
    NoSlashUnchanged(a + "\\" + b + "\\" + c);
    SplitJoined3(a, b, c);
  }

  lemma SplitJoined4(a: string, b: string, c: string, d: string)
    requires '\\' !in a && '\\' !in b && '\\' !in c && '\\' !in d
    ensures SplitChar(a + "\\" + b + "\\" + c + "\\" + d, '\\') == [a, b, c, d]
  {
    var rest := b + "\\" + c + "\\" + d;
    assert a + "\\" + b + "\\" + c + "\\" + d == a + ['\\'] + rest by {
      RegroupAfterFirst(a, ['\\'], b, c, d);
    }
    assert SplitChar(a + ['\\'] + rest, '\\') == [a] + [b, c, d] by {
      SplitCharCons(a, '\\', rest);
      SplitJoined3(b, c, d);
    }
    assert [a] + [b, c, d] == [a, b, c, d];
  }

  lemma SegmentsOfJoined4(a: string, b: string, c: string, d: string)
    requires '\\' !in a && '/' !in a && '\\' !in b && '/' !in b
    requires '\\' !in c && '/' !in c && '\\' !in d && '/' !in d
    ensures PathSegments(a + "\\" + b + "\\" + c + "\\" + d) == [a, b, c, d]
  {
    NoSlashUnchanged(a + "\\" + b + "\\" + c + "\\" + d);
    SplitJoined4(a, b, c, d);
  }

  /** Four parts joined by a separator: everything after the first separator groups together. */
  lemma RegroupAfterFirst(a: string, sep: string, b: string, c: string, d: string)
    ensures a + sep + b + sep + c + sep + d == a + sep + (b + sep + c + sep + d)
  {
  }

  /** Joins `parts` with `sep` between neighbours (`parts.join(sep)`). */
  function Join(parts: seq<string>, sep: string): (r: string)
    ensures parts == [] ==> r == []
  {
    if parts == [] then []
    else if |parts| == 1 then parts[0]
    else parts[0] + sep + Join(parts[1..], sep)
  }

  /** Replaces every character of `cs` with `repl` (`replace(/[...]/g, repl)` for one-character classes). */
  function ReplaceChars(s: string, cs: set<char>, repl: char): (r: string)
    ensures |r| == |s|
    ensures forall i :: 0 <= i < |s| ==> r[i] == (if s[i] in cs then repl else s[i])
  {
    if s == [] then [] else [if s[0] in cs then repl else s[0]] + ReplaceChars(s[1..], cs, repl)
  }

  /** Removes every occurrence of `c` (`replace(/c/g, '')`). */
  function RemoveChar(s: string, c: char): (r: string)
    ensures c !in r
    ensures |r| <= |s|
    ensures c !in s ==> r == s
  {
    if s == [] then [] else (if s[0] == c then [] else [s[0]]) + RemoveChar(s[1..], c)
  }

  /** Removing a character distributes over concatenation. */
  lemma {:induction false} RemoveCharAppend(a: string, b: string, c: char)
    ensures RemoveChar(a + b, c) == RemoveChar(a, c) + RemoveChar(b, c)
  {
    if a == [] {
      assert a + b == b;
    } else {
      var head := if a[0] == c then [] else [a[0]];
      assert (a + b)[0] == a[0] && (a + b)[1..] == a[1..] + b;
      calc {
        RemoveChar(a + b, c);
        head + RemoveChar(a[1..] + b, c);
        { RemoveCharAppend(a[1..], b, c); }
        head + (RemoveChar(a[1..], c) + RemoveChar(b, c));
      }
    }
  }

  /** `toLowerCase` on the ASCII letters. */
  function LowerChar(c: char): char {
    if 'A' <= c <= 'Z' then (c as int + 32) as char else c
  }

  function ToLower(s: string): (r: string)
    ensures |r| == |s|
    ensures forall i :: 0 <= i < |s| ==> r[i] == LowerChar(s[i])
  {
    if s == [] then [] else [LowerChar(s[0])] + ToLower(s[1..])
  }

  /** `toUpperCase` on the ASCII letters. */
  function UpperChar(c: char): char {
    if 'a' <= c <= 'z' then (c as int - 32) as char else c
  }

  function ToUpper(s: string): (r: string)
    ensures |r| == |s|
    ensures forall i :: 0 <= i < |s| ==> r[i] == UpperChar(s[i])
  {
    if s == [] then [] else [UpperChar(s[0])] + ToUpper(s[1..])
  }

  /** Lower-casing leaves a text without upper-case letters as it is. */
  lemma LowerUnchanged(s: string)
    requires forall i :: 0 <= i < |s| ==> !('A' <= s[i] <= 'Z')
    ensures ToLower(s) == s
  {
    forall i | 0 <= i < |s| ensures ToLower(s)[i] == s[i] {
    }
  }

  /** Upper-casing leaves a text without lower-case letters as it is. */
  lemma UpperUnchanged(s: string)
    requires forall i :: 0 <= i < |s| ==> !('a' <= s[i] <= 'z')
    ensures ToUpper(s) == s
  {
    forall i | 0 <= i < |s| ensures ToUpper(s)[i] == s[i] {
    }
  }

  /** `s.includes(pat)`. */
  predicate Includes(s: string, pat: string) {
    IndexOf(s, pat).Some?
  }

  /** `includes` finds the pattern exactly when it occurs somewhere. */
  lemma IncludesIff(s: string, pat: string)
    ensures Includes(s, pat) <==> exists k :: OccursAt(s, pat, k)
  {
    if !Includes(s, pat) {
      forall k ensures !OccursAt(s, pat, k) {
        if k < 0 { } else { }
      }
    }
  }

  /** A pattern found in a part is found in any string containing that part. */
  lemma IncludesIn(a: string, b: string, c: string, pat: string)
    requires Includes(b, pat)
    ensures Includes(a + b + c, pat)
  {
    var k := IndexOf(b, pat).value;
    var s := a + b + c;
    assert s[|a| + k..|a| + k + |pat|] == b[k..k + |pat|];
    assert OccursAt(s, pat, |a| + k);
    IncludesIff(s, pat);
  }
}
