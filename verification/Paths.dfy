/** The string and slash-separated path operations the result references rely on. */
module Paths {

  predicate IsSpace(c: char) {
    || c in {' ', '\t', '\n', '\r', '\U{000B}', '\U{000C}', '\U{0085}', '\U{00A0}', '\U{1680}'}
    || '\U{2000}' <= c <= '\U{200A}' || c in {'\U{2028}', '\U{2029}', '\U{202F}', '\U{205F}', '\U{3000}'}
  }

  function TrimLeft(s: string): string {
    if s != "" && IsSpace(s[0]) then TrimLeft(s[1..]) else s
  }

  function TrimRight(s: string): string {
    if s != "" && IsSpace(s[|s| - 1]) then TrimRight(s[..|s| - 1]) else s
  }

  function TrimSpace(s: string): string { TrimRight(TrimLeft(s)) }

  predicate HasPrefix(s: string, prefix: string) { prefix <= s }

  predicate HasSuffix(s: string, suffix: string) { |suffix| <= |s| && s[|s| - |suffix|..] == suffix }

  function TrimPrefix(s: string, prefix: string): string { if HasPrefix(s, prefix) then s[|prefix|..] else s }

  function TrimSuffix(s: string, suffix: string): string { if HasSuffix(s, suffix) then s[..|s| - |suffix|] else s }

  predicate SlashFree(s: string) { '/' !in s }

  /** The elements between the slashes; never empty. */
  function Split(s: string): (r: seq<string>)
    ensures r != []
  {
    if s == "" then [""]
    else if s[0] == '/' then [""] + Split(s[1..])
    else var rest := Split(s[1..]); [[s[0]] + rest[0]] + rest[1..]
  }

  function Join(segs: seq<string>): string {
    if segs == [] then "" else if |segs| == 1 then segs[0] else segs[0] + "/" + Join(segs[1..])
  }

  /** Drops empty and "." elements and lets ".." cancel what precedes it. */
  function CleanSegs(rooted: bool, segs: seq<string>, done: seq<string>): seq<string>
    decreases |segs|
  {
    if segs == [] then done
    else if segs[0] in {"", "."} then CleanSegs(rooted, segs[1..], done)
    else if segs[0] == ".." then
      CleanSegs(rooted, segs[1..],
                if done != [] && done[|done| - 1] != ".." then done[..|done| - 1]
                else if rooted then done else done + [".."])
    else CleanSegs(rooted, segs[1..], done + [segs[0]])
  }

  function Clean(p: string): string {
    if p == "" then "."
    else
      var rooted := p[0] == '/';
      var out := Join(CleanSegs(rooted, Split(p), []));
      if rooted then "/" + out else if out == "" then "." else out
  }

  function LastSlash(p: string): (i: int)
    ensures -1 <= i < |p|
  {
    if p == "" then -1 else if p[|p| - 1] == '/' then |p| - 1 else LastSlash(p[..|p| - 1])
  }

  function Dir(p: string): string { Clean(p[..LastSlash(p) + 1]) }

  function StripSlashes(p: string): string {
    if p != "" && p[|p| - 1] == '/' then StripSlashes(p[..|p| - 1]) else p
  }

  function Base(p: string): string {
    if p == "" then "."
    else var s := StripSlashes(p); if s == "" then "/" else s[LastSlash(s) + 1..]
  }

  /** From the last dot of the last element. */
  function Ext(p: string): string {
    if p == "" || p[|p| - 1] == '/' then ""
    else if p[|p| - 1] == '.' then "."
    else var e := Ext(p[..|p| - 1]); if e == "" then "" else e + [p[|p| - 1]]
  }

  // ---------------------------------------------------------------- their laws

  lemma TrimmedStays(s: string)
    requires s != "" && !IsSpace(s[0]) && !IsSpace(s[|s| - 1])
    ensures TrimSpace(s) == s
  {
  }

  lemma {:induction false} SplitFirst(x: string, rest: string)
    requires SlashFree(x)
    ensures Split(x + "/" + rest) == [x] + Split(rest)
  {
    var s := x + "/" + rest;
    if x == "" {
      assert s[1..] == rest;
    } else {
      SplitFirst(x[1..], rest);
      assert s[1..] == x[1..] + "/" + rest;
      assert [x[0]] + x[1..] == x;
    }
  }

  lemma {:induction false} LastSlashOf(x: string, y: string)
    requires SlashFree(y)
    ensures LastSlash(x + "/" + y) == |x|
  {
    var s := x + "/" + y;
    if y != "" {
      assert s[..|s| - 1] == x + "/" + y[..|y| - 1];
      LastSlashOf(x, y[..|y| - 1]);
    }
  }

  lemma {:induction false} ExtOf(x: string, y: string)
    requires SlashFree(y) && '.' !in y
    ensures Ext(x + "." + y) == "." + y
  {
    var s := x + "." + y;
    if y != "" {
      assert s[..|s| - 1] == x + "." + y[..|y| - 1];
      ExtOf(x, y[..|y| - 1]);
    }
  }

  /** Directory and last element of a path that ends in neither slash nor nothing. */
  lemma DirBaseOf(x: string, y: string)
    requires SlashFree(y) && y != ""
    ensures Dir(x + "/" + y) == Clean(x + "/") && Base(x + "/" + y) == y
  {
    var p := x + "/" + y;
    LastSlashOf(x, y);
    assert p[..|x| + 1] == x + "/";
    assert p[|p| - 1] == y[|y| - 1];
  }

  /** Five elements, grouped from the right or from the left. */
  lemma Regroup(a: string, b: string, c: string, d: string, e: string)
    ensures a + "/" + (b + "/" + (c + "/" + (d + "/" + e))) == (a + "/" + b + "/" + c + "/" + d) + "/" + e
  {
    var x := d + "/" + e;
    assert c + "/" + x == (c + "/" + d) + "/" + e;
    var y := c + "/" + d;
    assert b + "/" + (y + "/" + e) == (b + "/" + y) + "/" + e;
    var z := b + "/" + y;
    assert a + "/" + (z + "/" + e) == (a + "/" + z) + "/" + e;
    assert a + "/" + z == a + "/" + b + "/" + c + "/" + d;
  }

  predicate Special(id: string) { id in {"", ".", ".."} }

  /** A cleaned directory of two plain and two given elements is the directory of two wanted ones
      exactly when these are the given ones and neither is empty, "." or "..". */
  lemma CleanFour(a: string, b: string, t: string, u: string, v: string, w: string)
    requires SlashFree(a) && SlashFree(b) && SlashFree(t) && SlashFree(u) && SlashFree(v) && SlashFree(w)
    requires !Special(a) && !Special(b)
    ensures Clean(a + "/" + b + "/" + t + "/" + u + "/") == a + "/" + b + "/" + v + "/" + w
            <==> !Special(t) && !Special(u) && t == v && u == w
  {
    hide Split, Join;
    var dir := a + "/" + b + "/" + t + "/" + u + "/";
    FiveSegs(a, b, t, u);
    CleanDirectory(a, b, t, u);
    JoinFour(a, b, v, w);
    assert dir[0] == a[0] && a[0] in a;
    var out := CleanSegs(false, [t, u, ""], [a, b]);
    CleanTwo(a, b, t, u);
    SplitJoin([a, b, v, w]);
    if out == [] {
      assert Join(out) == "" by { JoinNone(); }
      assert Split(".") == ["."] by { SplitDot(); }
    } else {
      SplitJoin(out);
      NotEmptyJoin(out);
    }
  }

  lemma CleanDirectory(a: string, b: string, t: string, u: string)
    requires !Special(a) && !Special(b)
    ensures CleanSegs(false, [a, b, t, u, ""], []) == CleanSegs(false, [t, u, ""], [a, b])
  {
    CleanStep(a, [b, t, u, ""], []);
    CleanStep(b, [t, u, ""], [a]);
    assert [a, b, t, u, ""] == [a] + [b, t, u, ""] && [b, t, u, ""] == [b] + [t, u, ""];
    assert [] + [a] == [a] && [a] + [b] == [a, b];
  }

  lemma JoinNone()
    ensures Join([]) == ""
  {
  }

  lemma SplitDot()
    ensures Split(".") == ["."]
  {
    SplitPlain(".");
  }

  /** Elements without slashes are found again. */
  lemma {:induction false} SplitJoin(segs: seq<string>)
    requires segs != [] && forall i :: 0 <= i < |segs| ==> SlashFree(segs[i])
    ensures Split(Join(segs)) == segs
  {
    if |segs| == 1 {
      SplitPlain(segs[0]);
    } else {
      SplitJoin(segs[1..]);
      SplitFirst(segs[0], Join(segs[1..]));
      assert segs == [segs[0]] + segs[1..];
    }
  }

  lemma {:induction false} SplitPlain(x: string)
    requires SlashFree(x)
    ensures Split(x) == [x]
  {
    if x != "" {
      SplitPlain(x[1..]);
      assert [x[0]] + x[1..] == x;
    }
  }

  lemma NotEmptyJoin(segs: seq<string>)
    requires segs != [] && segs[0] != ""
    ensures Join(segs) != ""
  {
  }

  lemma {:induction false} TrimLeftWithin(s: string)
    ensures |TrimLeft(s)| <= |s| && TrimLeft(s) == s[|s| - |TrimLeft(s)|..]
  {
    if s != "" && IsSpace(s[0]) { TrimLeftWithin(s[1..]); }
  }

  lemma {:induction false} TrimRightWithin(s: string)
    ensures |TrimRight(s)| <= |s| && TrimRight(s) == s[..|TrimRight(s)|]
    ensures TrimRight(s) != "" ==> !IsSpace(TrimRight(s)[|TrimRight(s)| - 1])
  {
    if s != "" && IsSpace(s[|s| - 1]) { TrimRightWithin(s[..|s| - 1]); }
  }

  lemma {:induction false} TrimLeftStarts(s: string)
    ensures TrimLeft(s) != "" ==> !IsSpace(TrimLeft(s)[0])
  {
    if s != "" && IsSpace(s[0]) { TrimLeftStarts(s[1..]); }
  }

  lemma TrimmedIsSlashFree(s: string)
    requires SlashFree(s)
    ensures SlashFree(TrimSpace(s))
  {
    TrimLeftWithin(s);
    TrimRightWithin(TrimLeft(s));
  }

  lemma TrimTwice(s: string)
    ensures TrimSpace(TrimSpace(s)) == TrimSpace(s)
  {
    var l := TrimLeft(s);
    TrimLeftStarts(s);
    TrimRightWithin(l);
    if TrimSpace(s) != "" { TrimmedStays(TrimSpace(s)); }
  }

  lemma FiveSegs(a: string, b: string, t: string, u: string)
    requires SlashFree(a) && SlashFree(b) && SlashFree(t) && SlashFree(u)
    ensures Split(a + "/" + b + "/" + t + "/" + u + "/") == [a, b, t, u, ""]
  {
    hide Split;
    var s1 := u + "/" + "";
    var s2 := t + "/" + s1;
    var s3 := b + "/" + s2;
    SplitEmpty();
    SplitFirst(u, "");
    SplitFirst(t, s1);
    SplitFirst(b, s2);
    SplitFirst(a, s3);
    var tail := t + "/" + u + "/";
    assert tail == s2;
    assert b + "/" + tail == s3;
    assert a + "/" + b + "/" + t + "/" + u + "/" == a + "/" + (b + "/" + tail);
  }

  lemma SplitEmpty()
    ensures Split("") == [""]
  {
  }

  function OneSeg(seg: string, done: seq<string>): seq<string> {
    if seg in {"", "."} then done
    else if seg == ".." then if done != [] && done[|done| - 1] != ".." then done[..|done| - 1] else done + [".."]
    else done + [seg]
  }

  lemma CleanStep(seg: string, rest: seq<string>, done: seq<string>)
    ensures CleanSegs(false, [seg] + rest, done) == CleanSegs(false, rest, OneSeg(seg, done))
  {
    assert ([seg] + rest)[1..] == rest;
  }

  /** What is left of the last two elements. */
  lemma CleanTwo(a: string, b: string, t: string, u: string)
    requires !Special(a) && !Special(b)
    ensures var out := CleanSegs(false, [t, u, ""], [a, b]);
            if !Special(t) && !Special(u) then out == [a, b, t, u]
            else out == [a, b, t] || out == [a, b, u] || out == [a, b] || out == [a, u] || out == [a] || out == []
  {
    var mid := OneSeg(t, [a, b]);
    var out := OneSeg(u, mid);
    CleanStep(t, [u, ""], [a, b]);
    CleanStep(u, [""], mid);
    CleanStep("", [], out);
    assert [t, u, ""] == [t] + [u, ""] && [u, ""] == [u] + [""] && [""] == [""] + [];
    SegsLeft(a, b, t, u);
  }

  lemma SegsLeft(a: string, b: string, t: string, u: string)
    requires !Special(a) && !Special(b)
    ensures var out := OneSeg(u, OneSeg(t, [a, b]));
            if !Special(t) && !Special(u) then out == [a, b, t, u]
            else out == [a, b, t] || out == [a, b, u] || out == [a, b] || out == [a, u] || out == [a] || out == []
  {
    assert [a, b][..1] == [a] && [a, b] + [t] == [a, b, t];
    var mid := OneSeg(t, [a, b]);
    assert mid == if t in {"", "."} then [a, b] else if t == ".." then [a] else [a, b, t];
    assert [a, b, t][..2] == [a, b] && [a][..0] == [] && [a, b] + [u] == [a, b, u] && [a] + [u] == [a, u];
    assert [a, b, t] + [u] == [a, b, t, u];
  }

  lemma JoinFour(a: string, b: string, c: string, d: string)
    ensures Join([a, b, c, d]) == a + "/" + b + "/" + c + "/" + d
  {
    assert [a, b, c, d][1..] == [b, c, d] && [b, c, d][1..] == [c, d] && [c, d][1..] == [d];
    assert Join([c, d]) == c + "/" + d;
    assert Join([b, c, d]) == b + "/" + (c + "/" + d);
    assert a + "/" + (b + "/" + (c + "/" + d)) == a + "/" + b + "/" + c + "/" + d;
  }
}
