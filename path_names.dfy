/** The two os.path functions the proxy uses to recognise submodules, on POSIX path strings:
    posixpath.dirname and os.path.commonprefix. Both are pure string manipulations.
 */
module PathNames {

  const Sep: char := '/'

  /** os.path.commonprefix([a, b]): the longest common leading run of characters.
      For two strings the min/max ordering Python applies first does not change the result. */
  function CommonPrefix(a: string, b: string): (r: string)
    ensures r <= a && r <= b
    ensures |r| < |a| && |r| < |b| ==> a[|r|] != b[|r|]
  {
    if a == [] || b == [] || a[0] != b[0] then []
    else [a[0]] + CommonPrefix(a[1..], b[1..])
  }

  /** The test `commonprefix([a, b]) == a` is exactly "a is a character-wise prefix of b". */
  lemma CommonPrefixTest(a: string, b: string)
    ensures CommonPrefix(a, b) == a <==> a <= b
  {
  }

  /** p.rfind('/') + 1: the length of p up to and including its last separator, 0 if it has none. */
  function HeadLength(p: string): (n: nat)
    ensures n <= |p|
    ensures n > 0 ==> p[n - 1] == Sep
    ensures forall j | n <= j < |p| :: p[j] != Sep
  {
    if p == [] then 0
    else if p[|p| - 1] == Sep then |p|
    else HeadLength(p[..|p| - 1])
  }

  /** s.rstrip('/'). */
  function RStripSep(s: string): (r: string)
    ensures r <= s
    ensures r == [] || r[|r| - 1] != Sep
    ensures forall j | |r| <= j < |s| :: s[j] == Sep
  {
    if s != [] && s[|s| - 1] == Sep then RStripSep(s[..|s| - 1]) else s
  }

  predicate AllSep(s: string) {
    forall j | 0 <= j < |s| :: s[j] == Sep
  }

  /** posixpath.dirname: everything before the last separator, with trailing separators
      removed unless the head consists of separators only (the root "/" stays "/"). */
  function Dirname(p: string): (r: string)
    ensures r <= p
    ensures r == [] || r[|r| - 1] != Sep || AllSep(r)
    ensures forall j | |r| <= j < |p| && p[j] != Sep :: forall k | j < k < |p| :: p[k] != Sep
    ensures |r| <= HeadLength(p)
    ensures forall j | |r| <= j < HeadLength(p) :: p[j] == Sep
    ensures AllSep(p[..HeadLength(p)]) ==> r == p[..HeadLength(p)]
  {
    var head := p[..HeadLength(p)];
    if head != [] && !AllSep(head) then RStripSep(head) else head
  }

  /** What any dirname must be: a prefix of the path that stops inside the run of separators
      before the last component, without a trailing separator unless that run is everything. */
  ghost predicate IsDirname(p: string, r: string) {
    && r <= p && |r| <= HeadLength(p)
    && (forall j | |r| <= j < HeadLength(p) :: p[j] == Sep)
    && (r == [] || r[|r| - 1] != Sep || AllSep(p[..HeadLength(p)]))
    && (AllSep(p[..HeadLength(p)]) ==> r == p[..HeadLength(p)])
  }

  /** Dirname is the one string with that description. */
  lemma DirnameUnique(p: string, r: string)
    ensures IsDirname(p, r) <==> r == Dirname(p)
  {
    var d, h := Dirname(p), HeadLength(p);
    if !AllSep(p[..h]) && IsDirname(p, r) {
      assert r == p[..|r|] && d == p[..|d|];
    }
  }

  /** The directory of "dir/name" is dir, for a name without separators and a dir
      that does not end in one. */
  lemma DirnameOfJoin(dir: string, name: string)
    requires dir != [] && dir[|dir| - 1] != Sep
    requires Sep !in name
    ensures Dirname(dir + [Sep] + name) == dir
  {
    var p := dir + [Sep] + name;
    var n := HeadLength(p);
    assert p[|dir|] == Sep;
    forall j | |dir| + 1 <= j < |p|
      ensures p[j] != Sep
    {
      assert p[j] == name[j - |dir| - 1];
    }
    assert n == |dir| + 1;
    assert p[..n] == dir + [Sep];
    assert !AllSep(p[..n]) by { assert p[..n][|dir| - 1] != Sep; }
    assert RStripSep(dir + [Sep]) == RStripSep(dir) by {
      assert (dir + [Sep])[..|dir|] == dir;
    }
  }
}
