/**
 * File-system paths as sequences of segments.
 *
 * Node's `path` module works on strings; here a path is the list of its
 * non-empty segments. `path.join` becomes concatenation, `path.dirname`
 * drops the last segment and `path.relative` strips the common prefix and
 * climbs out of the rest of `from` with ".." segments.
 */
module Paths {

  type Path = seq<string>

  /** Position of the first '/' in `s`, or |s| when there is none. */
  function SlashIndex(s: string): (i: nat)
    ensures i <= |s|
    ensures forall k :: 0 <= k < i ==> s[k] != '/'
    ensures i < |s| ==> s[i] == '/'
  {
    if s == [] then 0
    else if s[0] == '/' then 0
    else 1 + SlashIndex(s[1..])
  }

  /** The segments of a '/'-separated string; empty segments are dropped. */
  function Split(s: string): (r: Path)
    ensures forall k :: 0 <= k < |r| ==> r[k] != "" && '/' !in r[k]
    decreases |s|
  {
    var i := SlashIndex(s);
    var head := s[..i];
    var rest := if i < |s| then Split(s[i + 1..]) else [];
    if head == "" then rest else [head] + rest
  }

  /** `path.join(a, b)` without normalisation. */
  function Join(a: Path, b: Path): Path {
    a + b
  }

  /** `path.dirname(p)`: the path without its last segment. */
  function Dirname(p: Path): (r: Path)
    ensures p != [] ==> r + [p[|p| - 1]] == p
    ensures p == [] ==> r == []
  {
    if p == [] then [] else p[..|p| - 1]
  }

  /** Length of the longest common prefix of `a` and `b`. */
  function CommonPrefixLength(a: Path, b: Path): (n: nat)
    ensures n <= |a| && n <= |b|
    ensures a[..n] == b[..n]
    ensures n < |a| && n < |b| ==> a[n] != b[n]
  {
    if a == [] || b == [] || a[0] != b[0] then 0
    else
      var n := 1 + CommonPrefixLength(a[1..], b[1..]);
      assert a[..n] == [a[0]] + a[1..][..n - 1];
      assert b[..n] == [b[0]] + b[1..][..n - 1];
      n
  }

  /** `k` copies of the parent-directory segment. */
  function Ups(k: nat): (r: Path)
    ensures |r| == k
    ensures forall i :: 0 <= i < k ==> r[i] == ".."
  {
    if k == 0 then [] else Ups(k - 1) + [".."]
  }

  /** `path.relative(from, to)`: the route from `from` to `to`. */
  function Relative(from: Path, to: Path): Path {
    var n := CommonPrefixLength(from, to);
    Ups(|from| - n) + to[n..]
  }

  /** A path inside `root` is reached from it by the rest of its segments. */
  lemma RelativeUnderRoot(root: Path, p: Path)
    requires root <= p
    ensures Relative(root, p) == p[|root|..]
  {
    var n := CommonPrefixLength(root, p);
    assert n == |root|;
  }

  /**
   * The directory of `bin` joined with the route from `root` to a path
   * inside it is that path's own directory, moved from `root` to `bin`.
   */
  lemma DirnameUnderRoot(bin: Path, root: Path, p: Path)
    requires root <= p && |root| < |p|
    ensures Dirname(Join(bin, Relative(root, p))) == bin + p[|root|..|p| - 1]
  {
    RelativeUnderRoot(root, p);
    var full := bin + p[|root|..];
    assert full[..|full| - 1] == bin + p[|root|..|p| - 1];
  }

  /** Mirroring under `bin` keeps distinct directories distinct. */
  lemma MirroredDirnames(bin: Path, root: Path, p1: Path, p2: Path)
    requires root <= p1 && |root| < |p1|
    requires root <= p2 && |root| < |p2|
    ensures bin + p1[|root|..|p1| - 1] == bin + p2[|root|..|p2| - 1] <==> Dirname(p1) == Dirname(p2)
  {
    var r1, r2 := p1[|root|..|p1| - 1], p2[|root|..|p2| - 1];
    assert Dirname(p1) == root + r1;
    assert Dirname(p2) == root + r2;
    if bin + r1 == bin + r2 {
      assert r1 == (bin + r1)[|bin|..];
      assert r2 == (bin + r2)[|bin|..];
    }
    if root + r1 == root + r2 {
      assert r1 == (root + r1)[|root|..];
      assert r2 == (root + r2)[|root|..];
    }
  }

  /** JavaScript's `s.startsWith(prefix)`, compared character by character. */
  function StartsWith(s: string, prefix: string): bool {
    if prefix == [] then true
    else if s == [] then false
    else s[0] == prefix[0] && StartsWith(s[1..], prefix[1..])
  }

  /** `StartsWith` is exactly the sequence-prefix relation. */
  lemma {:induction false} StartsWithIsPrefix(s: string, prefix: string)
    ensures StartsWith(s, prefix) <==> prefix <= s
  {
    if prefix != [] && s != [] {
      StartsWithIsPrefix(s[1..], prefix[1..]);
      if prefix[1..] <= s[1..] && s[0] == prefix[0] {
        assert prefix == [s[0]] + prefix[1..];
        assert s == [s[0]] + s[1..];
      }
      if prefix <= s {
        assert prefix[1..] <= s[1..];
      }
    }
  }
}
