/** Relative symbolic links: `MakeRuleCmd.create_relative_symbolic_link`, on the characters of the paths. */
module Symlink {
  // ----- the library functions the source calls -----

  predicate IsAbs(p: string) {
    |p| > 0 && p[0] == '/'
  }

  /** `p.rfind('/')` */
  function LastSlash(p: string): (i: int)
    ensures -1 <= i < |p|
    ensures i >= 0 ==> p[i] == '/'
    ensures forall j | i < j < |p| :: p[j] != '/'
  {
    if p == "" then -1 else if p[|p| - 1] == '/' then |p| - 1 else LastSlash(p[..|p| - 1])
  }

  /** `p.rstrip('/')` */
  function StripSlashes(p: string): (q: string)
    ensures q <= p && (q == "" || q[|q| - 1] != '/')
    ensures forall j | |q| <= j < |p| :: p[j] == '/'
  {
    if p == "" || p[|p| - 1] != '/' then p else StripSlashes(p[..|p| - 1])
  }

  /** `os.path.dirname` */
  function Dirname(p: string): (d: string)
    ensures d <= p
  {
    var head := p[..LastSlash(p) + 1];
    var stripped := StripSlashes(head);
    if stripped == "" then head else stripped
  }

  /** `s.replace('//', '/')` */
  function ReplaceDouble(s: string): string {
    if |s| < 2 then s
    else if s[0] == '/' && s[1] == '/' then "/" + ReplaceDouble(s[2..])
    else [s[0]] + ReplaceDouble(s[1..])
  }

  // ----- the function -----

  function IsPathPrefixOf(temp: string, target: string): bool {
    (if |temp| > 1 then temp + "/" else temp) <= target
  }

  datatype Link = Link(text: string) | AssertionError

  /** "/" or a path below it. */
  predicate Rooted(p: string) {
    p == "/" || (|p| > 1 && p[0] == '/' && p[1] != '/')
  }

  lemma DirnameClimbs(p: string)
    requires Rooted(p) && p != "/"
    ensures Rooted(Dirname(p)) && |Dirname(p)| < |p|
  {
    assert p[0] == '/';
    var i := LastSlash(p);
    var head := p[..i + 1];
    var stripped := StripSlashes(head);
    if i > 0 {
      assert head[1] == p[1] != '/';
      assert |stripped| > 1;
    } else {
      assert head == "/";
      assert head[..0] == "";
    }
  }

  /** The loop that walks up from the directory of the link. */
  function Climb(temp: string, target: string, relative: string): (r: (string, string))
    requires Rooted(temp) && IsAbs(target)
    ensures IsPathPrefixOf(r.0, target)
    decreases |temp|
  {
    if IsPathPrefixOf(temp, target) then (temp, relative)
    else
      assert temp != "/";
      DirnameClimbs(temp);
      Climb(Dirname(temp), target, relative + "../")
  }

  /** The directory of the link, as the source computes it. */
  function LinkDir(link: string): string
    requires link != ""
  {
    "/" + if link[|link| - 1] != '/' then Dirname(link) else link[..|link| - 1]
  }

  function RelativeLink(target: string, link: string): Link
  {
    if target == "" || link == "" || IsAbs(target) || IsAbs(link) then AssertionError
    else
      LinkDirRooted(link);
      var (temp, relative) := Climb(LinkDir(link), "/" + target, "");
      var text := ReplaceDouble(relative + ("/" + target)[|temp|..]);
      if IsAbs(text) then AssertionError else Link(text)
  }

  lemma LinkDirRooted(link: string)
    requires link != "" && !IsAbs(link)
    ensures Rooted(LinkDir(link))
  {
    if link[|link| - 1] != '/' {
      var d := Dirname(link);
      if d != "" { assert d[0] == link[0]; }
    } else {
      assert |link| > 1;
    }
  }

  /** The method of the source: its loop computes `Climb`, and its first assertion never fails in the loop. */
  method CreateRelativeSymbolicLink(target: string, link: string) returns (r: Link)
    ensures r == RelativeLink(target, link)
  {
    if target == "" || link == "" || IsAbs(target) || IsAbs(link) {
      return AssertionError;
    }
    var temp := if link[|link| - 1] != '/' then Dirname(link) else link[..|link| - 1];
    temp := "/" + temp;
    LinkDirRooted(link);
    var relative := "";
    var targetAsAbs := "/" + target;
    while !IsPathPrefixOf(temp, targetAsAbs)
      invariant Rooted(temp)
      invariant Climb(temp, targetAsAbs, relative) == Climb(LinkDir(link), targetAsAbs, "")
      decreases |temp|
    {
      assert temp != "/";
      DirnameClimbs(temp);
      temp := Dirname(temp);
      relative := relative + "../";
    }
    relative := relative + targetAsAbs[|temp|..];
    relative := ReplaceDouble(relative);
    if IsAbs(relative) {
      return AssertionError;
    }
    r := Link(relative);
  }

  // ----- paths as components -----

  predicate NoSlash(s: string) {
    forall i | 0 <= i < |s| :: s[i] != '/'
  }

  predicate Normal(cs: seq<string>) {
    forall i | 0 <= i < |cs| :: cs[i] != "" && cs[i] != "." && cs[i] != ".." && NoSlash(cs[i])
  }

  /** "/a/b" */
  function Slashed(cs: seq<string>): string {
    if cs == [] then "" else "/" + cs[0] + Slashed(cs[1..])
  }

  /** The absolute path of the components. */
  function Absolute(cs: seq<string>): string {
    if cs == [] then "/" else Slashed(cs)
  }

  /** The relative path of the components: "a/b" */
  function Relative(cs: seq<string>): string
    requires cs != []
  {
    Slashed(cs)[1..]
  }

  function Split(s: string): (pieces: seq<string>)
    ensures pieces != []
  {
    if s == "" then [""] else
      var rest := Split(s[1..]);
      if s[0] == '/' then [""] + rest else [[s[0]] + rest[0]] + rest[1..]
  }

  /** Where a relative path leads from a directory. */
  function Resolve(dir: seq<string>, pieces: seq<string>): seq<string>
    decreases |pieces|
  {
    if pieces == [] then dir
    else if pieces[0] == "" || pieces[0] == "." then Resolve(dir, pieces[1..])
    else if pieces[0] == ".." then Resolve(if dir == [] then [] else dir[..|dir| - 1], pieces[1..])
    else Resolve(dir + [pieces[0]], pieces[1..])
  }

  lemma {:induction false} SlashedAppend(a: seq<string>, b: seq<string>)
    ensures Slashed(a + b) == Slashed(a) + Slashed(b)
  {
    if a == [] {
      assert a + b == b;
    } else {
      SlashedAppend(a[1..], b);
      assert (a + b)[1..] == a[1..] + b;
    }
  }

  lemma SlashedOne(c: string)
    ensures Slashed([c]) == "/" + c
  {
    assert [c][1..] == [];
  }

  lemma SlashedLast(cs: seq<string>)
    requires cs != []
    ensures Slashed(cs) == Slashed(cs[..|cs| - 1]) + "/" + cs[|cs| - 1]
  {
    hide Slashed;
    var init, last := cs[..|cs| - 1], cs[|cs| - 1];
    SlashedAppend(init, [last]);
    SlashedOne(last);
    assert cs == init + [last];
    assert Slashed(init) + ("/" + last) == Slashed(init) + "/" + last;
  }

  /** A string of components ends in a component. */
  lemma SlashedEnd(cs: seq<string>)
    requires cs != [] && Normal(cs)
    ensures |Slashed(cs)| >= 2 && Slashed(cs)[0] == '/' && Slashed(cs)[1] != '/'
    ensures Slashed(cs)[|Slashed(cs)| - 1] != '/'
  {
    SlashedLast(cs);
    assert Slashed(cs)[1] == cs[0][0];
    var last := cs[|cs| - 1];
    assert Slashed(cs)[|Slashed(cs)| - 1] == last[|last| - 1];
  }

  lemma DirnameOf(p: string, q: string, c: string)
    requires p == q + "/" + c && NoSlash(c) && (q == "" || q[|q| - 1] != '/')
    ensures Dirname(p) == if q == "" then "/" else q
  {
    assert p[|q|] == '/';
    assert forall j | |q| < j < |p| :: p[j] == c[j - |q| - 1];
    assert LastSlash(p) == |q|;
    assert p[..|q| + 1] == q + "/";
    var stripped := StripSlashes(q + "/");
    if q != "" {
      assert (q + "/")[|q| - 1] == q[|q| - 1] != '/';
      assert stripped == q;
    } else {
      assert (q + "/")[..0] == "";
    }
  }

  lemma DirnameOfAbsolute(cs: seq<string>)
    requires cs != [] && Normal(cs)
    ensures Dirname(Absolute(cs)) == Absolute(cs[..|cs| - 1])
  {
    var init := cs[..|cs| - 1];
    SlashedLast(cs);
    if init != [] { SlashedEnd(init); }
    DirnameOf(Slashed(cs), Slashed(init), cs[|cs| - 1]);
  }

  /** A path is a prefix of another exactly when its components are a proper prefix. */
  lemma {:induction false} SlashedPrefix(a: seq<string>, t: seq<string>)
    requires a != [] && Normal(a) && Normal(t)
    ensures Slashed(a) + "/" <= Slashed(t) <==> a < t
  {
    if a < t {
      var rest := t[|a|..];
      SlashedAppend(a, rest);
      assert t == a + rest;
      SlashedEnd(rest);
    }
    if Slashed(a) + "/" <= Slashed(t) {
      PrefixIsProper(a, t);
    }
  }

  lemma {:induction false} PrefixIsProper(a: seq<string>, t: seq<string>)
    requires Normal(a) && Normal(t)
    requires Slashed(a) + "/" <= Slashed(t)
    ensures a < t
    decreases |a|
  {
    assert t != [];
    if a != [] {
      var p, q := "/" + a[0], "/" + t[0];
      var arest, trest := Slashed(a[1..]), Slashed(t[1..]);
      assert Slashed(a) + "/" == p + (arest + "/") && Slashed(t) == q + trest;
      assert (arest + "/")[0] == '/';
      SameHead(a[0], t[0], arest + "/", trest);
      assert arest + "/" <= trest;
      PrefixIsProper(a[1..], t[1..]);
      assert a == [a[0]] + a[1..] && t == [t[0]] + t[1..];
    }
  }

  lemma InsideName(c: string, x: string)
    requires NoSlash(c)
    ensures forall j | 1 <= j <= |c| :: ("/" + c + x)[j] != '/'
  {
    forall j | 1 <= j <= |c| ensures ("/" + c + x)[j] != '/' {
      assert ("/" + c + x)[j] == c[j - 1];
    }
  }

  lemma SameHead(c: string, d: string, x: string, y: string)
    requires NoSlash(c) && NoSlash(d)
    requires x != "" && x[0] == '/' && (y == "" || y[0] == '/')
    requires "/" + c + x <= "/" + d + y
    ensures c == d && x <= y
  {
    var l, r := "/" + c + x, "/" + d + y;
    InsideName(c, x);
    InsideName(d, y);
    assert l[|c| + 1] == x[0] && r[|c| + 1] == l[|c| + 1];
    assert |c| >= |d| && y != "" && r[|d| + 1] == y[0];
    assert c == l[1..|c| + 1] == r[1..|c| + 1] == d;
    assert x == l[|c| + 1..] && y == r[|c| + 1..];
  }

  lemma PrefixOfAbsolute(a: seq<string>, t: seq<string>)
    requires Normal(a) && Normal(t) && t != []
    ensures IsPathPrefixOf(Absolute(a), Absolute(t)) <==> a < t
  {
    SlashedEnd(t);
    if a != [] {
      SlashedEnd(a);
      SlashedPrefix(a, t);
    } else {
      assert "/" <= Slashed(t);
      assert a < t;
    }
  }

  // ----- the climb, in components -----

  /** The longest prefix of `d` that is a proper prefix of `t`. */
  function Common(d: seq<string>, t: seq<string>): (a: seq<string>)
    requires t != []
    ensures a <= d && a < t
  {
    if d < t then d else Common(d[..|d| - 1], t)
  }

  function Ups(k: nat): string {
    if k == 0 then "" else Ups(k - 1) + "../"
  }

  lemma ClimbUnfolds(temp: string, target: string, relative: string)
    requires Rooted(temp) && IsAbs(target)
    ensures IsPathPrefixOf(temp, target) ==> Climb(temp, target, relative) == (temp, relative)
    ensures !IsPathPrefixOf(temp, target) ==>
      temp != "/" && Rooted(Dirname(temp)) &&
      Climb(temp, target, relative) == Climb(Dirname(temp), target, relative + "../")
  {
    if !IsPathPrefixOf(temp, target) {
      assert temp != "/";
      DirnameClimbs(temp);
    }
  }

  lemma AbsoluteRooted(cs: seq<string>)
    requires Normal(cs)
    ensures Rooted(Absolute(cs)) && IsAbs(Absolute(cs))
  {
    if cs != [] { SlashedEnd(cs); }
  }

  lemma CommonUnfolds(d: seq<string>, t: seq<string>)
    requires t != []
    ensures Common(d, t) == if d < t then d else Common(d[..|d| - 1], t)
  {}

  lemma UpsUnfolds(k: nat)
    ensures Ups(0) == "" && Ups(k) + "../" == Ups(k + 1)
  {}

  lemma ClimbStep(d: seq<string>, t: seq<string>, k: nat)
    requires Normal(d) && Normal(t) && t != [] && !(d < t)
    requires Rooted(Absolute(d)) && IsAbs(Absolute(t))
    ensures d != [] && Normal(d[..|d| - 1]) && Rooted(Absolute(d[..|d| - 1]))
    ensures Climb(Absolute(d), Absolute(t), Ups(k)) == Climb(Absolute(d[..|d| - 1]), Absolute(t), Ups(k + 1))
  {
    assert d != [];
    assert Normal(d[..|d| - 1]);
    hide *;
    PrefixOfAbsolute(d, t);
    ClimbUnfolds(Absolute(d), Absolute(t), Ups(k));
    DirnameOfAbsolute(d);
    UpsUnfolds(k);
  }

  lemma {:induction false} ClimbMeets(d: seq<string>, t: seq<string>, k: nat)
    requires Normal(d) && Normal(t) && t != [] && Rooted(Absolute(d)) && IsAbs(Absolute(t))
    ensures Climb(Absolute(d), Absolute(t), Ups(k)) ==
            (Absolute(Common(d, t)), Ups(k + |d| - |Common(d, t)|))
    decreases |d|
  {
    hide *;
    CommonUnfolds(d, t);
    if d < t {
      PrefixOfAbsolute(d, t);
      ClimbUnfolds(Absolute(d), Absolute(t), Ups(k));
    } else {
      ClimbStep(d, t, k);
      ClimbMeets(d[..|d| - 1], t, k + 1);
    }
  }

  // ----- removing the double slash -----

  predicate DoubleAt(s: string, i: nat)
    requires i + 1 < |s|
  {
    s[i] == '/' && s[i + 1] == '/'
  }

  predicate NoDouble(s: string) {
    forall i: nat | i < |s| - 1 :: !DoubleAt(s, i)
  }

  lemma NoDoubleTail(s: string)
    requires NoDouble(s) && s != ""
    ensures NoDouble(s[1..])
  {
    forall i: nat | i < |s[1..]| - 1 ensures !DoubleAt(s[1..], i) { assert !DoubleAt(s, i + 1); }
  }

  lemma {:induction false} ReplaceNothing(s: string)
    requires NoDouble(s)
    ensures ReplaceDouble(s) == s
  {
    if |s| >= 2 {
      assert !DoubleAt(s, 0);
      NoDoubleTail(s);
      ReplaceNothing(s[1..]);
    }
  }

  lemma {:induction false} ReplaceJoint(a: string, b: string)
    requires NoDouble(a) && NoDouble(b) && a != "" && a[|a| - 1] == '/' && b != "" && b[0] != '/'
    ensures ReplaceDouble(a + "/" + b) == a + b
    decreases |a|
  {
    var s := a + "/" + b;
    if |a| == 1 {
      assert s[2..] == b;
      ReplaceNothing(b);
    } else {
      assert !DoubleAt(a, 0);
      assert s[1..] == a[1..] + "/" + b;
      NoDoubleTail(a);
      ReplaceJoint(a[1..], b);
      assert a == [a[0]] + a[1..];
    }
  }

  lemma NoDoubleAppend(a: string, b: string)
    requires NoDouble(a) && NoDouble(b)
    requires a == "" || b == "" || a[|a| - 1] != '/' || b[0] != '/'
    ensures NoDouble(a + b)
  {
    forall i: nat | i < |a + b| - 1 ensures !DoubleAt(a + b, i) {
      if i + 1 < |a| {
        assert !DoubleAt(a, i);
      } else if i >= |a| {
        assert !DoubleAt(b, i - |a|);
      }
    }
  }

  lemma {:induction false} UpsShape(k: nat)
    ensures NoDouble(Ups(k)) && (k > 0 ==> |Ups(k)| >= 3 && Ups(k)[|Ups(k)| - 1] == '/' && Ups(k)[0] == '.')
  {
    if k > 0 {
      UpsShape(k - 1);
      NoDoubleAppend(Ups(k - 1), "../");
    }
  }

  lemma {:induction false} SlashedNoDouble(cs: seq<string>)
    requires Normal(cs)
    ensures NoDouble(Slashed(cs))
  {
    if cs != [] {
      SlashedNoDouble(cs[1..]);
      assert NoDouble("/" + cs[0]) by {
        forall i: nat | i < |"/" + cs[0]| - 1 ensures !DoubleAt("/" + cs[0], i) { assert cs[0][i] != '/'; }
      }
      NoDoubleAppend("/" + cs[0], Slashed(cs[1..]));
    }
  }

  lemma RelativeShape(cs: seq<string>)
    requires cs != [] && Normal(cs)
    ensures Slashed(cs) == "/" + Relative(cs) && NoDouble(Relative(cs))
    ensures Relative(cs) != "" && Relative(cs)[0] != '/'
  {
    SlashedEnd(cs);
    SlashedNoDouble(cs);
    NoDoubleTail(Slashed(cs));
  }

  /** What is left of the target below one of its prefixes. */
  lemma BelowPrefix(a: seq<string>, t: seq<string>)
    requires Normal(t) && a < t
    ensures Normal(a) && Normal(t[|a|..]) && |Absolute(a)| <= |Absolute(t)|
    ensures Absolute(t)[|Absolute(a)|..] == (if a == [] then "" else "/") + Relative(t[|a|..])
  {
    var rest := t[|a|..];
    assert t == a + rest;
    SlashedAppend(a, rest);
    RelativeShape(rest);
    if a == [] { assert rest == t; }
  }

  lemma JoinedText(k: nat, below: string, rooted: bool)
    requires NoDouble(below) && below != "" && below[0] != '/'
    ensures var text := ReplaceDouble(Ups(k) + ((if rooted then "" else "/") + below));
            if !rooted && k == 0 then IsAbs(text) else text == Ups(k) + below
  {
    UpsShape(k);
    if rooted {
      NoDoubleAppend(Ups(k), below);
      ReplaceNothing(Ups(k) + below);
      assert "" + below == below;
    } else if k == 0 {
      assert forall i: nat | i < |"/" + below| - 1 :: DoubleAt("/" + below, i) ==> i > 0 && DoubleAt(below, i - 1);
      ReplaceNothing("/" + below);
      assert Ups(k) + ("/" + below) == "/" + below;
    } else {
      ReplaceJoint(Ups(k), below);
      assert Ups(k) + ("/" + below) == Ups(k) + "/" + below;
    }
  }

  // ----- when the method fails -----

  lemma {:induction false} ClimbGrows(temp: string, target: string, relative: string)
    requires Rooted(temp) && IsAbs(target)
    ensures relative <= Climb(temp, target, relative).1
    decreases |temp|
  {
    ClimbUnfolds(temp, target, relative);
    if !IsPathPrefixOf(temp, target) {
      DirnameClimbs(temp);
      ClimbGrows(Dirname(temp), target, relative + "../");
    }
  }

  lemma ReplaceFirst(s: string)
    requires s != ""
    ensures ReplaceDouble(s) != "" && ReplaceDouble(s)[0] == s[0]
  {}

  /** For all strings: the method fails exactly on an empty or absolute path, and when the directory of the
      link is not the root and is, with a slash behind it, a prefix of the target. */
  lemma FailsExactly(target: string, link: string)
    ensures RelativeLink(target, link).AssertionError? <==>
            || target == "" || link == "" || IsAbs(target) || IsAbs(link)
            || (LinkDir(link) != "/" && LinkDir(link) + "/" <= "/" + target)
  {
    if target != "" && link != "" && !IsAbs(target) && !IsAbs(link) {
      LinkDirRooted(link);
      var dir, full := LinkDir(link), "/" + target;
      ClimbUnfolds(dir, full, "");
      var (temp, climb) := Climb(dir, full, "");
      RelativeLinkIs(target, link, temp, climb);
      var text := climb + full[|temp|..];
      if IsPathPrefixOf(dir, full) {
        assert text == full[|dir|..];
        assert dir != "/" ==> text[0] == '/';
        assert dir == "/" ==> text == target;
        ReplaceFirst(text);
      } else {
        DirnameClimbs(dir);
        ClimbGrows(Dirname(dir), full, "" + "../");
        assert text[0] == '.';
        ReplaceFirst(text);
      }
    }
  }

  // ----- resolving what was written -----

  lemma {:induction false} SplitHead(c: string, s: string)
    requires NoSlash(c)
    ensures Split(c + "/" + s) == [c] + Split(s)
    ensures Split(c) == [c]
  {
    if c == "" {
      assert c + "/" + s == "/" + s;
      assert ("/" + s)[1..] == s;
    } else {
      var x := c + "/" + s;
      assert NoSlash(c[1..]);
      SplitHead(c[1..], s);
      assert x[1..] == c[1..] + "/" + s;
      assert c == [c[0]] + c[1..];
    }
  }

  lemma RelativeFront(cs: seq<string>)
    requires cs != [] && Normal(cs)
    ensures Relative(cs) == if |cs| == 1 then cs[0] else cs[0] + "/" + Relative(cs[1..])
  {
    assert Slashed(cs) == "/" + (cs[0] + Slashed(cs[1..]));
    if |cs| > 1 { RelativeShape(cs[1..]); }
  }

  lemma {:induction false} SplitRelative(cs: seq<string>)
    requires cs != [] && Normal(cs)
    ensures Split(Relative(cs)) == cs
    decreases |cs|
  {
    assert Normal(cs[1..]) && NoSlash(cs[0]);
    hide *;
    RelativeFront(cs);
    if |cs| == 1 {
      SplitHead(cs[0], "");
      assert cs == [cs[0]];
    } else {
      SplitRelative(cs[1..]);
      SplitHead(cs[0], Relative(cs[1..]));
      assert cs == [cs[0]] + cs[1..];
    }
  }

  lemma {:induction false} ResolveNames(dir: seq<string>, cs: seq<string>)
    requires Normal(cs)
    ensures Resolve(dir, cs) == dir + cs
    decreases |cs|
  {
    if cs == [] {
      assert dir + cs == dir;
    } else {
      ResolveNames(dir + [cs[0]], cs[1..]);
      assert dir + cs == dir + [cs[0]] + cs[1..];
    }
  }

  lemma UpsFront(k: nat)
    requires k > 0
    ensures Ups(k) == "../" + Ups(k - 1)
  {
    if k > 1 {
      UpsFront(k - 1);
      assert Ups(k) == "../" + Ups(k - 2) + "../";
    }
  }

  lemma {:induction false} ResolveUps(dir: seq<string>, k: nat, s: string)
    requires k <= |dir|
    ensures Resolve(dir, Split(Ups(k) + s)) == Resolve(dir[..|dir| - k], Split(s))
    decreases k
  {
    if k == 0 {
      assert Ups(k) + s == s && dir[..|dir|] == dir;
    } else {
      UpsFront(k);
      assert Ups(k) + s == ".." + "/" + (Ups(k - 1) + s);
      SplitHead("..", Ups(k - 1) + s);
      var pieces := Split(Ups(k) + s);
      assert pieces[0] == ".." && pieces[1..] == Split(Ups(k - 1) + s);
      ResolveUps(dir[..|dir| - 1], k - 1, s);
      assert dir[..|dir| - 1][..|dir| - k] == dir[..|dir| - k];
    }
  }

  // ----- the round trip -----

  /** `link` names a file in the directory `d`, or (with a slash at its end) the directory `d`. */
  ghost predicate LinkIn(link: string, d: seq<string>) {
    || (exists f: string :: Normal(d + [f]) && link == Relative(d + [f]))
    || (d != [] && Normal(d) && link == Relative(d) + "/")
  }

  lemma FileLinkDir(f: string, d: seq<string>)
    requires Normal(d + [f])
    ensures var link := Relative(d + [f]);
            Normal(d) && link != "" && !IsAbs(link) && LinkDir(link) == Absolute(d)
  {
    var cs := d + [f];
    var link := Relative(cs);
    assert Normal(d) by { assert forall i | 0 <= i < |d| :: cs[i] == d[i]; }
    assert cs[|d|] == f;
    RelativeShape(cs);
    SlashedEnd(cs);
    assert link[|link| - 1] == Slashed(cs)[|link|] && |Slashed(cs)| == |link| + 1;
    SlashedAppend(d, [f]);
    assert Slashed([f]) == "/" + f;
    if d == [] {
      assert link == f;
      LoneName(f);
    } else {
      RelativeShape(d);
      SlashedEnd(d);
      assert link == Relative(d) + "/" + f;
      assert Relative(d)[|Relative(d)| - 1] == Slashed(d)[|Slashed(d)| - 1];
      DirnameOf(link, Relative(d), f);
    }
  }

  lemma LoneName(f: string)
    requires NoSlash(f)
    ensures Dirname(f) == ""
  {
    assert LastSlash(f) == -1;
    assert f[..0] == "";
  }

  lemma LinkInDir(link: string, d: seq<string>)
    requires LinkIn(link, d)
    ensures Normal(d) && link != "" && !IsAbs(link) && LinkDir(link) == Absolute(d)
  {
    if d != [] && Normal(d) && link == Relative(d) + "/" {
      RelativeShape(d);
      assert link[..|link| - 1] == Relative(d);
    } else {
      var f :| Normal(d + [f]) && link == Relative(d + [f]);
      FileLinkDir(f, d);
    }
  }

  /** Where the source ends up, in components. */
  lemma LinkMeets(target: string, t: seq<string>, link: string, d: seq<string>)
    requires t != [] && Normal(t) && target == Relative(t) && LinkIn(link, d)
    ensures
      var a := Common(d, t);
      RelativeLink(target, link) ==
      if a != [] && a == d then AssertionError else Link(Ups(|d| - |a|) + Relative(t[|a|..]))
  {
    hide *;
    LinkInDir(link, d);
    LinkDirRooted(link);
    TargetIsRelative(t);
    AbsoluteRooted(d);
    AbsoluteRooted(t);
    var a := Common(d, t);
    UpsUnfolds(0);
    ClimbMeets(d, t, 0);
    BelowPrefix(a, t);
    var k := |d| - |a|;
    TargetIsRelative(t[|a|..]);
    JoinedText(k, Relative(t[|a|..]), a == []);
    ClimbIsRelative(k, Relative(t[|a|..]));
    RelativeLinkIs(target, link, Absolute(a), Ups(k));
  }

  lemma TargetIsRelative(t: seq<string>)
    requires t != [] && Normal(t)
    ensures Absolute(t) == "/" + Relative(t) && NoDouble(Relative(t))
    ensures Relative(t) != "" && Relative(t)[0] != '/' && !IsAbs(Relative(t))
  {
    RelativeShape(t);
  }

  lemma ClimbIsRelative(k: nat, below: string)
    requires below != "" && below[0] != '/'
    ensures !IsAbs(Ups(k) + below)
  {
    UpsShape(k);
    if k > 0 { assert (Ups(k) + below)[0] == Ups(k)[0]; }
  }

  lemma RelativeLinkIs(target: string, link: string, temp: string, climb: string)
    requires target != "" && link != "" && !IsAbs(target) && !IsAbs(link)
    requires Rooted(LinkDir(link)) && |temp| <= |"/" + target|
    requires Climb(LinkDir(link), "/" + target, "") == (temp, climb)
    ensures var text := ReplaceDouble(climb + ("/" + target)[|temp|..]);
            RelativeLink(target, link) == if IsAbs(text) then AssertionError else Link(text)
  {
    hide IsAbs, Climb, LinkDir, Rooted, ReplaceDouble;
  }

  lemma Prefixes(d: seq<string>, t: seq<string>, a: seq<string>)
    requires Normal(t) && a < t && a <= d
    ensures d[..|a|] == a && a + t[|a|..] == t && Normal(t[|a|..])
  {}

  /** Up from `d` to its prefix `a`, and down by `rest`. */
  lemma LeadsBack(d: seq<string>, a: seq<string>, rest: seq<string>)
    requires Normal(rest) && rest != [] && |a| <= |d| && d[..|a|] == a
    ensures Resolve(d, Split(Ups(|d| - |a|) + Relative(rest))) == a + rest
  {
    hide *;
    ResolveUps(d, |d| - |a|, Relative(rest));
    SplitRelative(rest);
    ResolveNames(a, rest);
  }

  /** The link leads from its directory to the target, and the method fails exactly when that
      directory is a proper ancestor of the target other than the root. */
  lemma RoundTrip(target: string, t: seq<string>, link: string, d: seq<string>)
    requires t != [] && Normal(t) && target == Relative(t) && LinkIn(link, d)
    ensures RelativeLink(target, link).AssertionError? <==> d != [] && d < t
    ensures RelativeLink(target, link).Link? ==> Resolve(d, Split(RelativeLink(target, link).text)) == t
  {
    hide *;
    LinkMeets(target, t, link, d);
    CommonUnfolds(d, t);
    var a := Common(d, t);
    Prefixes(d, t, a);
    LeadsBack(d, a, t[|a|..]);
  }
}
