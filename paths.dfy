/** Paths as pathlib and os.path treat them: joining, the final component,
    lexical normalisation (os.path.normpath / abspath) and os.path.relpath.
    A canonical path is a sequence of components none of which is empty,
    "." or "..", read from the root. */
module Paths {

  /** A path: rooted at "/" when `absolute`, otherwise relative to the
      working directory. */
  datatype Path = Path(absolute: bool, parts: seq<string>)

  /** `p / name` */
  function Join(p: Path, name: string): Path {
    Path(p.absolute, p.parts + [name])
  }

  /** `p.name`: the final component, or "" for a path that has none. */
  function Name(p: Path): string {
    if p.parts == [] then "" else p.parts[|p.parts| - 1]
  }

  predicate IsComponent(c: string) {
    c != "" && c != "." && c != ".."
  }

  predicate Canonical(parts: seq<string>) {
    forall i :: 0 <= i < |parts| ==> IsComponent(parts[i])
  }

  /** One component of normpath: "" and "." vanish, ".." drops the last
      component (and stays at the root), anything else is appended. */
  function Step(acc: seq<string>, c: string): seq<string> {
    if c == "" || c == "." then acc
    else if c == ".." then (if acc == [] then [] else acc[..|acc| - 1])
    else acc + [c]
  }

  /** Normalise `parts`, read from left to right, onto the canonical `acc`. */
  function NormFrom(acc: seq<string>, parts: seq<string>): (r: seq<string>)
    requires Canonical(acc)
    ensures Canonical(r)
    ensures |r| <= |acc| + |parts|
    decreases |parts|
  {
    if parts == [] then acc else NormFrom(Step(acc, parts[0]), parts[1..])
  }

  /** normpath of a rooted path, as a canonical component sequence. */
  function Normalize(parts: seq<string>): seq<string> {
    NormFrom([], parts)
  }

  /** os.path.abspath(p) given the working directory `cwd`. This is also
      what Path.resolve() yields when no symbolic link lies on the way. */
  function AbsPath(cwd: seq<string>, p: Path): seq<string> {
    Normalize(if p.absolute then p.parts else cwd + p.parts)
  }

  /** Length of the longest common prefix of `a` and `b`. */
  function CommonPrefixLength(a: seq<string>, b: seq<string>): (k: nat)
    ensures k <= |a| && k <= |b|
    ensures a[..k] == b[..k]
    ensures k < |a| && k < |b| ==> a[k] != b[k]
  {
    if a == [] || b == [] || a[0] != b[0] then 0
    else
      var k' := CommonPrefixLength(a[1..], b[1..]);
      assert a[..k' + 1] == [a[0]] + a[1..][..k'];
      assert b[..k' + 1] == [b[0]] + b[1..][..k'];
      1 + k'
  }

  /** `n` parent-directory components. */
  function Dots(n: nat): seq<string> {
    if n == 0 then [] else [".."] + Dots(n - 1)
  }

  /** os.path.relpath(target, start) on canonical absolute paths: climb
      out of `start` to the common prefix, then descend into `target`;
      "." when the two are equal. */
  function RelPath(target: seq<string>, start: seq<string>): Path {
    var k := CommonPrefixLength(target, start);
    var rel := Dots(|start| - k) + target[k..];
    Path(false, if rel == [] then ["."] else rel)
  }

  /** Normalising a concatenation is normalising the second part onto the
      normalised first part. */
  lemma {:induction false} NormFromAppend(acc: seq<string>, a: seq<string>, b: seq<string>)
    requires Canonical(acc)
    ensures NormFrom(acc, a + b) == NormFrom(NormFrom(acc, a), b)
    decreases |a|
  {
    if a == [] {
      assert a + b == b;
    } else {
      assert (a + b)[0] == a[0];
      assert (a + b)[1..] == a[1..] + b;
      NormFromAppend(Step(acc, a[0]), a[1..], b);
    }
  }

  /** Canonical components are appended unchanged. */
  lemma {:induction false} NormFromCanonical(acc: seq<string>, c: seq<string>)
    requires Canonical(acc) && Canonical(c)
    ensures NormFrom(acc, c) == acc + c
    decreases |c|
  {
    if c != [] {
      assert IsComponent(c[0]);
      NormFromCanonical(acc + [c[0]], c[1..]);
      assert acc + [c[0]] + c[1..] == acc + c;
    }
  }

  /** Each ".." removes one trailing component. */
  lemma {:induction false} NormFromDots(acc: seq<string>, n: nat)
    requires Canonical(acc) && n <= |acc|
    ensures NormFrom(acc, Dots(n)) == acc[..|acc| - n]
    decreases n
  {
    if n > 0 {
      var up := acc[..|acc| - 1];
      assert Step(acc, "..") == up;
      NormFromDots(up, n - 1);
      assert up[..|up| - (n - 1)] == acc[..|acc| - n];
    }
  }

  /** Climbing `n` levels out of canonical `start` and descending into the
      canonical `rest` lands on `start[..|start| - n] + rest`. */
  lemma {:induction false} ClimbThenDescend(start: seq<string>, n: nat, rest: seq<string>)
    requires Canonical(start) && Canonical(rest) && n <= |start|
    ensures Normalize(start + (Dots(n) + rest)) == start[..|start| - n] + rest
  {
    NormFromCanonical([], start);
    assert [] + start == start;
    NormFromAppend([], start, Dots(n) + rest);
    NormFromAppend(start, Dots(n), rest);
    NormFromDots(start, n);
    NormFromCanonical(start[..|start| - n], rest);
  }

  /** The relative link target computed by os.path.relpath, read from the
      directory `start`, leads back to `target`: joining and normalising
      gives `target` again, whatever the nesting depth of either. */
  lemma {:induction false} RelPathResolves(target: seq<string>, start: seq<string>)
    requires Canonical(target) && Canonical(start)
    ensures !RelPath(target, start).absolute
    ensures Normalize(start + RelPath(target, start).parts) == target
  {
    var k := CommonPrefixLength(target, start);
    var rest := target[k..];
    assert Canonical(rest) by {
      forall i | 0 <= i < |rest| ensures IsComponent(rest[i]) {
        assert rest[i] == target[k + i];
      }
    }
    ClimbThenDescend(start, |start| - k, rest);
    assert start[..|start| - (|start| - k)] == target[..k];
    assert target[..k] + rest == target;
    if Dots(|start| - k) + rest == [] {
      assert start == start[..k] == target;
      NormFromCanonical([], start);
      assert [] + start == start;
      NormFromAppend([], start, ["."]);
    }
  }
}
