/** The path test that selects entries of a compilation database (is_subpath_of in
  tools/iwyu_tool.py), on a system with case-sensitive paths and '/' as separator. */
module SubpathOf {

  predicate StartsWith(s: string, prefix: string) {
    prefix <= s
  }

  /** str.rstrip('/'). */
  function RStrip(s: string): (r: string)
    ensures r <= s && (r == "" || r[|r| - 1] != '/')
    ensures forall i :: |r| <= i < |s| ==> s[i] == '/'
  {
    if s != "" && s[|s| - 1] == '/' then RStrip(s[..|s| - 1]) else s
  }

  predicate IsSubpathOf(path: string, parent: string) {
    if path == parent then true
    else if !StartsWith(path, parent) then false
    else StartsWith(path[|RStrip(parent)|..], "/")
  }

  // ---------- Canonical paths ----------

  predicate Name(c: string) {
    c != "" && '/' !in c
  }

  ghost predicate Canonical(cs: seq<string>) {
    forall c :: c in cs ==> Name(c)
  }

  /** The absolute path of a list of components; the root is "/". */
  function Render(cs: seq<string>): string {
    if cs == [] then "/" else Slashed(cs)
  }

  function Slashed(cs: seq<string>): string {
    if cs == [] then "" else "/" + cs[0] + Slashed(cs[1..])
  }

  /** The test on strings is the test on components: a canonical path is accepted exactly
    when the components of the parent are the first components of the path. */
  lemma SubpathIsPrefix(path: seq<string>, parent: seq<string>)
    requires Canonical(path) && Canonical(parent)
    ensures IsSubpathOf(Render(path), Render(parent)) <==> parent <= path
  {
    var p, q := Render(path), Slashed(parent);
    SlashedShape(path);
    SlashedShape(parent);
    if path == [] {
      assert p == "/";
      assert parent == [] || |Render(parent)| > 1;
    } else {
      PrefixOfSlashed(path, parent);
      if parent == [] {
        assert RStrip("/") == "";
      } else {
        assert RStrip(q) == q;
        assert q <= p && p[|q|..] != "" ==> StartsWith(p[|q|..], "/") == (p[|q|] == '/');
      }
    }
  }

  lemma {:induction false} SlashedShape(cs: seq<string>)
    requires Canonical(cs)
    ensures cs != [] ==> |Slashed(cs)| > 1 && Slashed(cs)[0] == '/' && Slashed(cs)[|Slashed(cs)| - 1] != '/'
  {
    if cs != [] {
      SlashedShape(cs[1..]);
      assert Name(cs[0]);
    }
  }

  /** A rendered list continues another one, at its end or at a separator, exactly when it
    has it as a prefix of components. */
  lemma {:induction false} PrefixOfSlashed(path: seq<string>, parent: seq<string>)
    requires Canonical(path) && Canonical(parent)
    ensures var p, q := Slashed(path), Slashed(parent);
            (q <= p && (p[|q|..] == "" || p[|q|] == '/')) <==> parent <= path
    decreases |parent|
  {
    var p, q := Slashed(path), Slashed(parent);
    if parent == [] {
      SlashedShape(path);
    } else if path != [] {
      var a, b := path[0], parent[0];
      var restA, restB := Slashed(path[1..]), Slashed(parent[1..]);
      assert Name(a) && Name(b);
      SlashedShape(path[1..]);
      SlashedShape(parent[1..]);
      PrefixOfSlashed(path[1..], parent[1..]);
      assert p == "/" + a + restA && q == "/" + b + restB;
      if a == b {
        assert p[..1 + |a|] == q[..1 + |b|];
        assert p[1 + |a|..] == restA && q[1 + |b|..] == restB;
        assert q <= p <==> restB <= restA;
        assert q <= p ==> p[|q|..] == restA[|restB|..];
        assert parent <= path <==> parent[1..] <= path[1..];
      } else {
        FirstComponentDiffers(a, restA, b, restB);
      }
    }
  }

  /** The part of a string before its first separator. */
  function Head(s: string): string {
    if s == "" || s[0] == '/' then "" else [s[0]] + Head(s[1..])
  }

  lemma {:induction false} HeadOfName(a: string, rest: string)
    requires '/' !in a && (rest == "" || rest[0] == '/')
    ensures Head(a + rest) == a
    decreases |a|
  {
    if a == "" {
      assert a + rest == rest;
    } else {
      assert (a + rest)[1..] == a[1..] + rest;
      HeadOfName(a[1..], rest);
    }
  }

  lemma {:induction false} HeadOfPrefix(p: string, q: string)
    requires q <= p && (|p| == |q| || p[|q|] == '/')
    ensures Head(p) == Head(q)
  {
    if q != "" {
      HeadOfPrefix(p[1..], q[1..]);
    }
  }

  lemma FirstComponentDiffers(a: string, restA: string, b: string, restB: string)
    requires Name(a) && Name(b) && a != b
    requires restA == "" || restA[0] == '/'
    requires restB == "" || restB[0] == '/'
    ensures var p, q := "/" + a + restA, "/" + b + restB;
            !(q <= p && (p[|q|..] == "" || p[|q|] == '/'))
  {
    HeadOfName(a, restA);
    HeadOfName(b, restB);
    var p, q := "/" + a + restA, "/" + b + restB;
    assert p[1..] == a + restA && q[1..] == b + restB;
    if q <= p && (p[|q|..] == "" || p[|q|] == '/') {
      HeadOfPrefix(p[1..], q[1..]);
    }
  }
}
