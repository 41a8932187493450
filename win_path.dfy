/** Windows paths compared by component, as Rust's `Path::components`, `Path::starts_with` and
    `Path::parent` see them on Windows: a drive prefix `X:` whose letter compares case-blind, a
    root directory, a leading `.`, `..`, and plain names; `.` elsewhere and repeated or trailing
    separators do not count. */
module WinPath {
  import opened Common
  import opened Text

  /** One component of a parsed path. `Disk` holds the drive letter upper-cased, as Rust's
      `Prefix::Disk` does, so two prefixes differing only in the letter's case are equal. */
  datatype Component = Disk(letter: char) | RootDir | CurDir | ParentDir | Normal(name: string)

  predicate IsSeparator(c: char) {
    c == '\\' || c == '/'
  }

  predicate IsDriveLetter(c: char) {
    'a' <= c <= 'z' || 'A' <= c <= 'Z'
  }

  /** The text starts with a drive prefix `X:`. */
  predicate HasDrive(p: string) {
    |p| >= 2 && IsDriveLetter(p[0]) && p[1] == ':'
  }

  /** The length of the leading run of characters that are not separators. */
  function SegmentLength(p: string): (n: nat)
    ensures n <= |p|
    ensures forall i :: 0 <= i < n ==> !IsSeparator(p[i])
    ensures n < |p| ==> IsSeparator(p[n])
  {
    if p == [] || IsSeparator(p[0]) then 0 else 1 + SegmentLength(p[1..])
  }

  /** A well-formed plain name: non-empty, without separators, neither `.` nor `..`. */
  predicate IsName(s: string) {
    s != [] && s != "." && s != ".." && forall i :: 0 <= i < |s| ==> !IsSeparator(s[i])
  }

  /** The component a segment between separators stands for; `.` stands for none. */
  function SegmentComponent(seg: string): seq<Component> {
    if seg == "." then [] else if seg == ".." then [ParentDir] else [Normal(seg)]
  }

  /** The components after the prefix and the root: one per segment, `.` segments dropped. */
  function Body(p: string): (r: seq<Component>)
    decreases |p|
    ensures forall k :: 0 <= k < |r| ==> r[k] == ParentDir || (r[k].Normal? && IsName(r[k].name))
  {
    if p == [] then []
    else if IsSeparator(p[0]) then Body(p[1..])
    else
      var n := SegmentLength(p);
      SegmentComponent(p[..n]) + Body(p[n..])
  }

  /** The components after the prefix: a root when a separator follows the prefix, otherwise a
      `.` in front is kept as `CurDir`. */
  function AfterPrefix(p: string): seq<Component> {
    if p != [] && IsSeparator(p[0]) then [RootDir] + Body(p[1..])
    else if p != [] && p[0] == '.' && (|p| == 1 || IsSeparator(p[1])) then [CurDir] + Body(p[1..])
    else Body(p)
  }

  /** `Path::new(p).components()`. */
  function Components(p: string): (r: seq<Component>)
    ensures HasDrive(p) ==> r != [] && r[0] == Disk(UpperChar(p[0]))
    ensures HasDrive(p) && |p| > 2 && IsSeparator(p[2]) ==> |r| >= 2 && r[1] == RootDir
    ensures !HasDrive(p) && p != [] && IsSeparator(p[0]) ==> r != [] && r[0] == RootDir
    ensures forall k :: 0 < k < |r| && !(k == 1 && r[0].Disk?) ==> r[k] == ParentDir || (r[k].Normal? && IsName(r[k].name))
  {
    if HasDrive(p) then [Disk(UpperChar(p[0]))] + AfterPrefix(p[2..]) else AfterPrefix(p)
  }

  /** `Path::new(path).starts_with(base)`: the base's components are a prefix of the path's. */
  predicate StartsWithPath(path: string, base: string) {
    Components(base) <= Components(path)
  }

  /** `Path::parent`, as components: none when there is no component or when the last one is the
      prefix or the root; otherwise the components before the last. */
  function Parent(p: string): (r: Option<seq<Component>>)
    ensures r.None? <==> Components(p) == [] || Components(p)[|Components(p)| - 1] == RootDir ||
                         Components(p)[|Components(p)| - 1].Disk?
    ensures r.Some? ==> Components(p) != [] && r.value + [Components(p)[|Components(p)| - 1]] == Components(p)
  {
    var cs := Components(p);
    if cs == [] then None
    else match cs[|cs| - 1]
      case Disk(_) => None
      case RootDir => None
      case _ => Some(cs[..|cs| - 1])
  }

  // ---------------------------------------------------------------------------------------------
  // How the parse treats drive letters, roots and `.`

  /** The drive letter's case does not matter: `c:\x` and `C:\x` have the same components. */
  lemma DriveCaseIgnored(d: char, s: string)
    requires IsDriveLetter(d)
    ensures Components([d, ':'] + s) == Components([UpperChar(d), ':'] + s)
  {
    assert ([d, ':'] + s)[2..] == s;
    assert ([UpperChar(d), ':'] + s)[2..] == s;
    assert UpperChar(UpperChar(d)) == UpperChar(d);
  }

  /** Hence whether a path lies under a directory does not depend on either drive letter's case. */
  lemma StartsWithIgnoresDriveCase(d: char, s: string, e: char, t: string)
    requires IsDriveLetter(d) && IsDriveLetter(e)
    ensures StartsWithPath([d, ':'] + s, [e, ':'] + t) <==> StartsWithPath([UpperChar(d), ':'] + s, [UpperChar(e), ':'] + t)
  {
    DriveCaseIgnored(d, s);
    DriveCaseIgnored(e, t);
  }

  /** A rooted drive path: the prefix, the root, then one component per segment. */
  lemma RootedComponents(d: char, s: string)
    requires IsDriveLetter(d)
    ensures Components([d, ':', '\\'] + s) == [Disk(UpperChar(d)), RootDir] + Body(s)
  {
    var p := [d, ':', '\\'] + s;
    assert HasDrive(p);
    assert AfterPrefix(p[2..]) == [RootDir] + Body(s) by {
      assert p[2..] == ['\\'] + s;
      assert (['\\'] + s)[1..] == s;
    }
  }

  /** A drive-relative path such as `C:a` has no root, so it never lies under `C:\`. */
  lemma RelativeNotUnderRoot(d: char, s: string)
    requires IsDriveLetter(d) && s != [] && !IsSeparator(s[0])
    ensures !StartsWithPath([d, ':'] + s, [d, ':', '\\'])
  {
    var p := [d, ':'] + s;
    assert p[2..] == s;
    RootedComponents(d, []);
    assert Components([d, ':', '\\'])[1] == RootDir;
    if |Components(p)| >= 2 {
      assert Components(p)[1] != RootDir;
    }
  }

  /** A drive's root has no parent. */
  lemma RootHasNoParent(d: char)
    requires IsDriveLetter(d)
    ensures Parent([d, ':', '\\']) == None
  {
    RootedComponents(d, []);
    assert Components([d, ':', '\\']) == [Disk(UpperChar(d)), RootDir];
  }

  /** A name right under a drive's root has that root as its parent. */
  lemma ParentOfTopName(d: char, name: string)
    requires IsDriveLetter(d) && IsName(name)
    ensures Parent([d, ':', '\\'] + name) == Some([Disk(UpperChar(d)), RootDir])
  {
    RootedComponents(d, name);
    BodyOfName(name);
  }

  /** A plain name is one component. */
  lemma BodyOfName(name: string)
    requires IsName(name)
    ensures Body(name) == [Normal(name)]
  {
    assert SegmentLength(name) == |name| by {
      SegmentLengthAll(name);
    }
    assert name[..|name|] == name;
    assert name[|name|..] == [];
  }

  /** A text without separators is one segment. */
  lemma {:induction false} SegmentLengthAll(s: string)
    requires forall i :: 0 <= i < |s| ==> !IsSeparator(s[i])
    ensures SegmentLength(s) == |s|
    decreases |s|
  {
    if s != [] {
      SegmentLengthAll(s[1..]);
    }
  }

  /** A separator ends a segment: the segment length of a text does not look past it. */
  lemma {:induction false} SegmentLengthAppend(a: string, c: char, b: string)
    requires IsSeparator(c)
    ensures SegmentLength(a) < |a| ==> SegmentLength(a + [c] + b) == SegmentLength(a)
    ensures SegmentLength(a) == |a| ==> SegmentLength(a + [c] + b) == |a|
    decreases |a|
  {
    if a != [] && !IsSeparator(a[0]) {
      SegmentLengthAppend(a[1..], c, b);
      assert (a + [c] + b)[1..] == a[1..] + [c] + b;
    }
  }

  /** Components split at a separator: the parts before and after it parse separately. */
  lemma {:induction false} BodySplit(a: string, c: char, b: string)
    requires IsSeparator(c)
    ensures Body(a + [c] + b) == Body(a) + Body(b)
    decreases |a|
  {
    var p := a + [c] + b;
    if a == [] {
      assert p[1..] == b;
    } else if IsSeparator(a[0]) {
      assert p[1..] == a[1..] + [c] + b;
      BodySplit(a[1..], c, b);
    } else {
      var n := SegmentLength(a);
      SegmentLengthAppend(a, c, b);
      assert SegmentLength(p) == n;
      assert p[..n] == a[..n];
      if n < |a| {
        assert p[n..] == a[n..] + [c] + b;
        BodySplit(a[n..], c, b);
      } else {
        assert a[n..] == [];
        assert p[n..] == [c] + b;
        assert ([c] + b)[1..] == b;
      }
    }
  }

  /** An interior `.` segment is dropped: `a\.\b` parses as `a\b`. */
  lemma DotSegmentDropped(a: string, b: string)
    ensures Body(a + ['\\', '.', '\\'] + b) == Body(a + ['\\'] + b)
  {
    var rest := ['.'] + ['\\'] + b;
    assert a + ['\\', '.', '\\'] + b == a + ['\\'] + rest;
    assert Body(rest) == Body(b) by {
      BodySplit(['.'], '\\', b);
      DotAlone();
    }
    BodySplit(a, '\\', rest);
    BodySplit(a, '\\', b);
  }

  /** A lone `.` stands for no component. */
  lemma DotAlone()
    ensures Body(['.']) == []
  {
    SegmentLengthAll(['.']);
    assert ['.'][..1] == ".";
    assert ['.'][1..] == [];
  }

  /** A file in a watched directory lies under it whatever the case of either drive letter:
      `C:\data\f.txt` lies under `c:\data`. */
  lemma FileUnderDirectory(d: char, e: char, dir: string, file: string)
    requires IsDriveLetter(d) && IsDriveLetter(e) && UpperChar(d) == UpperChar(e)
    ensures StartsWithPath([d, ':', '\\'] + dir + ['\\'] + file, [e, ':', '\\'] + dir)
  {
    RootedComponents(d, dir + ['\\'] + file);
    assert [d, ':', '\\'] + dir + ['\\'] + file == [d, ':', '\\'] + (dir + ['\\'] + file);
    RootedComponents(e, dir);
    BodySplit(dir, '\\', file);
  }

  /** A file in a rooted directory: the prefix, the root, the directory's components, then the
      file's name. */
  lemma ComponentsOfFile(d: char, dir: string, file: string)
    requires IsDriveLetter(d) && IsName(file)
    ensures Components([d, ':', '\\'] + dir + ['\\'] + file) == [Disk(UpperChar(d)), RootDir] + Body(dir) + [Normal(file)]
  {
    assert [d, ':', '\\'] + dir + ['\\'] + file == [d, ':', '\\'] + (dir + ['\\'] + file);
    RootedComponents(d, dir + ['\\'] + file);
    BodySplit(dir, '\\', file);
    BodyOfName(file);
  }

  /** The parent of a file in a rooted directory is the prefix, the root and the directory's
      components. */
  lemma ParentOfFile(d: char, dir: string, file: string)
    requires IsDriveLetter(d) && IsName(file)
    ensures Parent([d, ':', '\\'] + dir + ['\\'] + file) == Some([Disk(UpperChar(d)), RootDir] + Body(dir))
  {
    var pre := [Disk(UpperChar(d)), RootDir] + Body(dir);
    ComponentsOfFile(d, dir, file);
    assert (pre + [Normal(file)])[..|pre|] == pre;
  }
}
