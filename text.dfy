/**
  The string operations the script relies on: `str.lower`, `os.path.splitext`,
  `str.split` with a one-character separator, and `os.path.join` of a directory
  name with a key below it. Keys are relative paths built with `Join`; the
  ancestor relation between two keys is defined on the strings themselves.
 */
module Text {

  /** The separator `os.path.join` inserts between a directory name and a key below it. */
  const PathSep: char := '/'

  /** The separator of the "Number/Set" convention of the TRCK and TPOS frames. */
  const NumberSep: char := '/'

  function LowerChar(c: char): char
  {
    if 'A' <= c <= 'Z' then (c as int - 'A' as int + 'a' as int) as char else c
  }

  /** `str.lower` on ASCII letters; every other character is left as it is. */
  function Lower(s: string): string
  {
    seq(|s|, i requires 0 <= i < |s| => LowerChar(s[i]))
  }

  // ---------------------------------------------------------------------------
  // os.path.splitext

  function LastIndexOf(s: string, c: char): (i: int)
    ensures -1 <= i < |s|
    ensures 0 <= i ==> s[i] == c
    ensures forall m | i < m < |s| :: s[m] != c
    ensures i == -1 ==> c !in s
  {
    if s == [] then -1
    else if s[|s| - 1] == c then |s| - 1
    else
      var i := LastIndexOf(s[..|s| - 1], c);
      assert s[..|s| - 1] + [s[|s| - 1]] == s;
      i
  }

  predicate AllDots(s: string)
  {
    forall j :: 0 <= j < |s| ==> s[j] == '.'
  }

  /**
    `os.path.splitext` of an entry name (a name holds no separator). The
    extension starts at the last dot, unless every character before that dot is
    a dot too (".flac" and "..mp3" have no extension); it holds no further dot.
   */
  function SplitExt(name: string): (r: (string, string))
    ensures r.0 + r.1 == name
    ensures r.1 != "" ==> r.1[0] == '.' && !AllDots(r.0)
    ensures forall m | 0 < m < |r.1| :: r.1[m] != '.'
  {
    var i := LastIndexOf(name, '.');
    if i < 0 || AllDots(name[..i]) then
      (name, "")
    else
      assert name[..i] + name[i..] == name;
      (name[..i], name[i..])
  }

  /** A name has no extension exactly when every dot in it has only dots before it. */
  lemma SplitExtNone(name: string)
    ensures SplitExt(name).1 == "" <==> forall i :: 0 <= i < |name| && name[i] == '.' ==> AllDots(name[..i])
  {
    var i := LastIndexOf(name, '.');
    if i < 0 || AllDots(name[..i]) {
      forall j | 0 <= j < |name| && name[j] == '.' ensures AllDots(name[..j]) {
        assert forall m :: 0 <= m < j ==> name[..j][m] == name[..i][m];
      }
    } else {
      assert name[i] == '.';
    }
  }

  // ---------------------------------------------------------------------------
  // str.split with a one-character separator

  function IndexOf(s: string, c: char): (i: nat)
    requires c in s
    ensures i < |s| && s[i] == c && c !in s[..i]
  {
    if s[0] == c then 0
    else
      var i := IndexOf(s[1..], c);
      assert s[1..][..i] == s[1..i + 1];
      1 + i
  }

  lemma IndexOfFirst(s: string, c: char, i: nat)
    requires i < |s| && s[i] == c && c !in s[..i]
    ensures IndexOf(s, c) == i
  {
    var j := IndexOf(s, c);
    assert forall m :: 0 <= m < i ==> s[..i][m] == s[m];
    assert forall m :: 0 <= m < j ==> s[..j][m] == s[m];
  }

  /** `s.split(c)`: the pieces between the occurrences of `c`, always at least one. */
  function Split(s: string, c: char): (parts: seq<string>)
    ensures |parts| >= 1
    ensures |parts| == 1 <==> c !in s
    ensures c !in s ==> parts == [s]
    decreases |s|
  {
    if c !in s then [s]
    else
      var i := IndexOf(s, c);
      [s[..i]] + Split(s[i + 1..], c)
  }

  lemma SplitAt(a: string, c: char, x: string)
    requires c !in a
    ensures Split(a + [c] + x, c) == [a] + Split(x, c)
  {
    var s := a + [c] + x;
    assert s[|a|] == c;
    assert s[..|a|] == a;
    IndexOfFirst(s, c, |a|);
    assert s[|a| + 1..] == x;
  }

  // ---------------------------------------------------------------------------
  // Keys: relative paths

  /** An entry name as `scandir` reports it: never empty, never holding the separator. */
  predicate IsName(s: string)
  {
    s != "" && PathSep !in s
  }

  /** `os.path.join(dir, key)` for an entry name `dir` and a relative key. */
  function Join(dir: string, key: string): string
  {
    dir + [PathSep] + key
  }

  /** The components of a key. */
  function Components(key: string): seq<string>
  {
    Split(key, PathSep)
  }

  /** The first component of a key: the entry of the scanned directory it lies in or under. */
  function Head(key: string): string
  {
    Components(key)[0]
  }

  /** `p` names a directory strictly above `k`. */
  predicate IsAncestor(p: string, k: string)
  {
    |p| < |k| && k[..|p|] == p && k[|p|] == PathSep
  }

  lemma JoinComponents(dir: string, key: string)
    requires IsName(dir)
    ensures Components(Join(dir, key)) == [dir] + Components(key)
    ensures Head(Join(dir, key)) == dir
  {
    SplitAt(dir, PathSep, key);
  }

  lemma NameComponents(name: string)
    requires IsName(name)
    ensures Components(name) == [name] && Head(name) == name
  {
  }

  lemma JoinInjective(a: string, x: string, b: string, y: string)
    requires IsName(a) && IsName(b) && Join(a, x) == Join(b, y)
    ensures a == b && x == y
  {
    JoinComponents(a, x);
    JoinComponents(b, y);
    assert Join(a, x)[|a| + 1..] == x;
  }

  /** Keys joined onto the same directory name are equal only when the keys are. */
  lemma JoinInjectiveRight(dir: string)
    ensures forall x, y :: Join(dir, x) == Join(dir, y) ==> x == y
  {
    forall x, y | Join(dir, x) == Join(dir, y)
      ensures x == y
    {
      assert Join(dir, x)[|dir| + 1..] == x;
      assert Join(dir, y)[|dir| + 1..] == y;
    }
  }

  lemma JoinIsNotName(dir: string, key: string, name: string)
    requires IsName(name)
    ensures Join(dir, key) != name
  {
    assert Join(dir, key)[|dir|] == PathSep;
  }

  lemma NoAncestorOfName(p: string, name: string)
    requires IsName(name)
    ensures !IsAncestor(p, name)
  {
    assert forall m :: 0 <= m < |name| ==> name[m] in name;
  }

  lemma NameIsAncestorOfJoin(dir: string, key: string)
    ensures IsAncestor(dir, Join(dir, key))
  {
    assert Join(dir, key)[..|dir|] == dir;
  }

  lemma JoinKeepsAncestor(dir: string, p: string, k: string)
    requires IsAncestor(p, k)
    ensures IsAncestor(Join(dir, p), Join(dir, k))
  {
    var jk := Join(dir, k);
    assert jk[..|dir| + 1 + |p|] == dir + [PathSep] + k[..|p|];
  }

  /** What lies above `Join(dir, key)`: `dir` itself, or `dir` joined with what lies above `key`. */
  lemma AncestorOfJoin(p: string, dir: string, key: string)
    requires IsName(dir) && IsAncestor(p, Join(dir, key))
    ensures p == dir || (|p| > |dir| && p == Join(dir, p[|dir| + 1..]) && IsAncestor(p[|dir| + 1..], key))
  {
    var k := Join(dir, key);
    assert forall m :: 0 <= m < |dir| ==> k[m] == dir[m] && dir[m] in dir;
    if |p| == |dir| {
      assert p == k[..|dir|] == dir;
    } else {
      assert k[..|dir| + 1] == dir + [PathSep];
      assert p[..|dir| + 1] == k[..|dir| + 1];
      var q := p[|dir| + 1..];
      assert p == p[..|dir| + 1] + q;
      assert k[|dir| + 1..] == key;
      assert key[..|q|] == k[|dir| + 1..|p|] == q;
      assert key[|q|] == k[|p|];
    }
  }

  lemma JoinAncestorInv(dir: string, p: string, k: string)
    requires IsName(dir) && IsAncestor(Join(dir, p), Join(dir, k))
    ensures IsAncestor(p, k)
  {
    AncestorOfJoin(Join(dir, p), dir, k);
    assert Join(dir, p)[|dir| + 1..] == p;
  }

  /** A key and every key below it lie under the same entry of the scanned directory. */
  lemma AncestorSameHead(p: string, k: string)
    requires IsAncestor(p, k)
    ensures Head(p) == Head(k)
  {
    assert k == p + [PathSep] + k[|p| + 1..] by {
      assert k == k[..|p|] + [k[|p|]] + k[|p| + 1..];
    }
    if PathSep !in p {
      SplitAt(p, PathSep, k[|p| + 1..]);
    } else {
      var i := IndexOf(p, PathSep);
      assert k[..i] == p[..i];
      IndexOfFirst(k, PathSep, i);
    }
  }
}
