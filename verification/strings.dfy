/** String helpers with the semantics of the Python built-ins the scripts use:
    `str.split` on a one-character separator and `os.path.basename` (POSIX). */
module Strings {

  /** Position of the first occurrence of `c` in `s`. */
  function IndexOf(s: string, c: char): (k: nat)
    requires c in s
    ensures k < |s| && s[k] == c
    ensures c !in s[..k]
  {
    if s[0] == c then 0
    else
      var k' := IndexOf(s[1..], c);
      assert s[..k' + 1] == [s[0]] + s[1..][..k'];
      k' + 1
  }

  /** Python's `s.split(sep)`: the separator-free runs between occurrences of
      `sep`, empty runs included, so there is always one more part than there
      are separators. */
  function Split(s: string, sep: char): (parts: seq<string>)
    ensures |parts| >= 1
    ensures forall i :: 0 <= i < |parts| ==> sep !in parts[i]
    ensures sep !in s <==> |parts| == 1
    decreases |s|
  {
    if sep !in s then [s]
    else
      var k := IndexOf(s, sep);
      [s[..k]] + Split(s[k + 1..], sep)
  }

  /** The first part of a split is the prefix of `s` up to the first
      separator, or all of `s` when there is none; the remaining parts are the
      split of what follows that separator. */
  lemma SplitHead(s: string, sep: char)
    ensures var parts := Split(s, sep);
            && |parts[0]| <= |s|
            && s[..|parts[0]|] == parts[0]
            && (sep in s ==> |parts[0]| < |s| && s[|parts[0]|] == sep
                             && s == parts[0] + [sep] + s[|parts[0]| + 1..]
                             && parts[1..] == Split(s[|parts[0]| + 1..], sep))
            && (sep !in s ==> parts[0] == s)
  {
    if sep in s {
      var k := IndexOf(s, sep);
      var rest := s[k + 1..];
      assert Split(s, sep) == [s[..k]] + Split(rest, sep);
      Decompose(s, k);
    } else {
      assert s[..|s|] == s;
    }
  }

  /** A string is its prefix, the character at `k` and its suffix. */
  lemma Decompose(s: string, k: nat)
    requires k < |s|
    ensures s == s[..k] + [s[k]] + s[k + 1..]
  {
  }

  /** A character missing from two strings is missing from their
      concatenation. */
  lemma NotInConcat(a: string, b: string, c: char)
    requires c !in a && c !in b
    ensures c !in a + b
  {
    assert forall i :: 0 <= i < |a + b| ==> (a + b)[i] == if i < |a| then a[i] else b[i - |a|];
  }

  /** Concatenation is associative. */
  lemma Associative<T>(a: seq<T>, b: seq<T>, c: seq<T>)
    ensures a + (b + c) == (a + b) + c
  {
  }

  /** Python's `sep.join(parts)`, the inverse of `Split`. */
  function Join(parts: seq<string>, sep: char): string
  {
    if |parts| == 0 then ""
    else if |parts| == 1 then parts[0]
    else parts[0] + [sep] + Join(parts[1..], sep)
  }

  /** The first occurrence of `sep` in `a + [sep] + b` is the one just after `a`. */
  lemma {:induction false} IndexOfAfterFree(a: string, b: string, sep: char)
    requires sep !in a
    ensures IndexOf(a + [sep] + b, sep) == |a|
    decreases |a|
  {
    var s := a + [sep] + b;
    if |a| > 0 {
      assert s[0] == a[0] != sep;
      assert s[1..] == a[1..] + [sep] + b;
      IndexOfAfterFree(a[1..], b, sep);
    }
  }

  /** When `a` is separator-free, splitting `a + [sep] + b` gives `a` and
      then the split of `b`, whatever `b` holds. */
  lemma SplitAfterFirst(a: string, b: string, sep: char)
    requires sep !in a
    ensures Split(a + [sep] + b, sep) == [a] + Split(b, sep)
  {
    var s := a + [sep] + b;
    IndexOfAfterFree(a, b, sep);
    assert s[|a|] == sep;
    assert s[..|a|] == a;
    assert s[|a| + 1..] == b;
  }

  /** Splitting then joining gives back the original string. */
  lemma {:induction false} JoinSplit(s: string, sep: char)
    ensures Join(Split(s, sep), sep) == s
    decreases |s|
  {
    var parts := Split(s, sep);
    SplitHead(s, sep);
    if sep in s {
      var rest := s[|parts[0]| + 1..];
      JoinSplit(rest, sep);
      assert Join(parts, sep) == parts[0] + [sep] + Join(parts[1..], sep);
    }
  }

  /** Joining separator-free parts then splitting gives back the parts. */
  lemma {:induction false} SplitJoin(parts: seq<string>, sep: char)
    requires |parts| >= 1
    requires forall i :: 0 <= i < |parts| ==> sep !in parts[i]
    ensures Split(Join(parts, sep), sep) == parts
    decreases |parts|
  {
    if |parts| == 1 {
      assert Join(parts, sep) == parts[0];
    } else {
      var a := parts[0];
      var b := Join(parts[1..], sep);
      var s := a + [sep] + b;
      assert Join(parts, sep) == s;
      IndexOfAfterFree(a, b, sep);
      assert s[|a|] == sep;
      assert s[..|a|] == a;
      assert s[|a| + 1..] == b;
      SplitJoin(parts[1..], sep);
      assert Split(s, sep) == [a] + parts[1..];
    }
  }

  /** Splitting `a + [sep] + b` with both halves separator-free yields exactly
      the two halves. */
  lemma SplitPair(a: string, b: string, sep: char)
    requires sep !in a && sep !in b
    ensures Split(a + [sep] + b, sep) == [a, b]
  {
    SplitJoin([a, b], sep);
    assert Join([a, b], sep) == a + [sep] + Join([b], sep);
  }

  /** POSIX `os.path.basename`: everything after the last `/`, the whole
      string when there is no `/`, and "" when the path ends in `/`. It is the
      longest suffix of `p` that holds no `/`. */
  function Basename(p: string): (b: string)
    ensures '/' !in b
    ensures |b| <= |p| && p[|p| - |b|..] == b
    ensures |b| == |p| || p[|p| - |b| - 1] == '/'
    decreases |p|
  {
    if |p| == 0 then ""
    else if p[|p| - 1] == '/' then ""
    else
      var init := p[..|p| - 1];
      var b' := Basename(init);
      assert init[|init| - |b'|..] == b';
      assert p[|p| - |b'| - 1..] == b' + [p[|p| - 1]];
      b' + [p[|p| - 1]]
  }

  /** A suffix of a string inherits every character it lacks. */
  lemma BasenameAvoids(p: string, c: char)
    requires c !in p
    ensures c !in Basename(p)
  {
  }

  /** A slash-free name placed after a directory and `/` is its own basename. */
  lemma {:induction false} BasenameOfChild(dir: string, name: string)
    requires '/' !in name
    ensures Basename(dir + "/" + name) == name
    decreases |name|
  {
    var p := dir + "/" + name;
    if |name| == 0 {
      assert p[|p| - 1] == '/';
    } else {
      var init := name[..|name| - 1];
      var last := name[|name| - 1];
      assert last in name;
      assert p[|p| - 1] == last;
      assert p[..|p| - 1] == dir + "/" + init;
      assert '/' !in init by {
        assert forall i :: 0 <= i < |init| ==> init[i] == name[i];
      }
      BasenameOfChild(dir, init);
      assert Basename(p) == Basename(p[..|p| - 1]) + [last];
      assert name == init + [last];
    }
  }
}
