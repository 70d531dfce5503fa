/**
  Mount paths: lexical cleaning of slash-separated paths, what it preserves, and
  which strings it leaves alone.
 */
module MountPaths {
  import opened Common

  // ---------- Splitting and joining ----------

  function Split(s: string): (r: seq<string>)
    ensures r != []
  {
    if s == "" then [""]
    else if s[0] == '/' then [""] + Split(s[1..])
    else
      var rest := Split(s[1..]);
      [[s[0]] + rest[0]] + rest[1..]
  }

  function Join(cs: seq<string>): string {
    if cs == [] then ""
    else if |cs| == 1 then cs[0]
    else cs[0] + "/" + Join(cs[1..])
  }

  predicate NoSlash(c: string) { '/' !in c }

  lemma {:induction false} JoinSplit(s: string)
    ensures Join(Split(s)) == s
    ensures forall c :: c in Split(s) ==> NoSlash(c)
  {
    if s != "" {
      JoinSplit(s[1..]);
      var rest := Split(s[1..]);
      if s[0] == '/' {
        assert ([""] + rest)[1..] == rest;
        assert s == "/" + s[1..];
      } else {
        var first := [s[0]] + rest[0];
        assert rest[0] in rest && NoSlash(first);
        assert ([first] + rest[1..])[1..] == rest[1..];
        assert s == [s[0]] + s[1..];
      }
    }
  }

  lemma {:induction false} SplitComponent(c: string)
    requires NoSlash(c)
    ensures Split(c) == [c]
  {
    if c != "" {
      SplitComponent(c[1..]);
      assert c == [c[0]] + c[1..];
    }
  }

  lemma {:induction false} SplitFirst(c: string, rest: string)
    requires NoSlash(c)
    ensures Split(c + "/" + rest) == [c] + Split(rest)
  {
    var s := c + "/" + rest;
    if c == "" {
      assert s[1..] == rest;
    } else {
      SplitFirst(c[1..], rest);
      assert s[1..] == c[1..] + "/" + rest;
      assert c == [c[0]] + c[1..];
    }
  }

  lemma {:induction false} SplitJoin(cs: seq<string>)
    requires cs != [] && forall c :: c in cs ==> NoSlash(c)
    ensures Split(Join(cs)) == cs
  {
    if |cs| == 1 {
      SplitComponent(cs[0]);
    } else {
      SplitJoin(cs[1..]);
      SplitFirst(cs[0], Join(cs[1..]));
    }
  }

  // ---------- Cleaning ----------

  predicate Absolute(path: string) { path != "" && path[0] == '/' }

  /** One component read onto the components kept so far. */
  function Push(rooted: bool, kept: seq<string>, c: string): seq<string> {
    if c == "" || c == "." then kept
    else if c == ".." then
      if kept != [] && kept[|kept| - 1] != ".." then kept[..|kept| - 1]
      else if rooted then kept
      else kept + [".."]
    else kept + [c]
  }

  function Kept(rooted: bool, cs: seq<string>): seq<string> {
    if cs == [] then [] else Push(rooted, Kept(rooted, cs[..|cs| - 1]), cs[|cs| - 1])
  }

  function Clean(path: string): string {
    var kept := Kept(Absolute(path), Split(path));
    if Absolute(path) then "/" + Join(kept)
    else if kept == [] then "."
    else Join(kept)
  }

  /** A component that names an entry of its directory. */
  predicate Plain(c: string) { c != "" && c != "." && c != ".." && NoSlash(c) }

  /** Plain components, after leading `..` in a relative path. */
  ghost predicate Canonical(rooted: bool, cs: seq<string>) {
    && (forall i :: 0 <= i < |cs| ==> Plain(cs[i]) || (!rooted && cs[i] == ".."))
    && (forall i, j :: 0 <= i < j < |cs| && cs[j] == ".." ==> cs[i] == "..")
  }

  lemma {:induction false} KeptIsCanonical(rooted: bool, cs: seq<string>)
    requires forall c :: c in cs ==> NoSlash(c)
    ensures Canonical(rooted, Kept(rooted, cs))
    decreases |cs|
  {
    if cs != [] {
      KeptIsCanonical(rooted, cs[..|cs| - 1]);
    }
  }

  lemma {:induction false} CanonicalIsKept(rooted: bool, cs: seq<string>)
    requires Canonical(rooted, cs)
    ensures Kept(rooted, cs) == cs
    decreases |cs|
  {
    if cs != [] {
      CanonicalIsKept(rooted, cs[..|cs| - 1]);
      assert cs == cs[..|cs| - 1] + [cs[|cs| - 1]];
    }
  }

  /** The empty component before a leading slash changes nothing. */
  lemma {:induction false} KeptAfterSlash(rooted: bool, cs: seq<string>)
    ensures Kept(rooted, [""] + cs) == Kept(rooted, cs)
    decreases |cs|
  {
    if cs == [] {
      assert [""] + cs == [""] && [""][..0] == [];
    } else {
      KeptAfterSlash(rooted, cs[..|cs| - 1]);
      assert ([""] + cs)[..|cs|] == [""] + cs[..|cs| - 1];
    }
  }

  lemma AbsoluteKept(cs: seq<string>)
    requires Canonical(true, cs)
    ensures Kept(true, Split("/" + Join(cs))) == cs
  {
    SplitFirst("", Join(cs));
    assert "" + "/" + Join(cs) == "/" + Join(cs);
    if cs == [] {
      assert Split("/" + Join(cs)) == [""] + [""];
      KeptAfterSlash(true, [""]);
      KeptAfterSlash(true, []);
      assert [""] + [] == [""];
    } else {
      SplitJoin(cs);
      KeptAfterSlash(true, cs);
      CanonicalIsKept(true, cs);
    }
  }

  lemma RelativeKept(cs: seq<string>)
    requires Canonical(false, cs) && cs != []
    ensures !Absolute(Join(cs)) && Join(cs) != "" && Kept(false, Split(Join(cs))) == cs
  {
    SplitJoin(cs);
    CanonicalIsKept(false, cs);
    assert Join(cs)[0] == cs[0][0];
  }

  lemma DotIsKept()
    ensures Split(".") == ["."] && Kept(false, ["."]) == []
  {
    SplitComponent(".");
    assert ["."][..0] == [];
  }

  /** Cleaning a cleaned path changes nothing, whatever the path. */
  lemma CleanIdempotent(path: string)
    ensures Clean(Clean(path)) == Clean(path)
  {
    var rooted := Absolute(path);
    var kept := Kept(rooted, Split(path));
    JoinSplit(path);
    KeptIsCanonical(rooted, Split(path));
    if rooted {
      AbsoluteKept(kept);
    } else if kept == [] {
      DotIsKept();
    } else {
      RelativeKept(kept);
    }
  }

  /** A cleaned path is never empty: a relative path that leads nowhere is the dot. */
  lemma CleanNeverEmpty(path: string)
    ensures Clean(path) != "" && Absolute(Clean(path)) == Absolute(path)
    ensures Clean("") == "."
  {
    JoinSplit(path);
    KeptIsCanonical(Absolute(path), Split(path));
    if !Absolute(path) && Kept(false, Split(path)) != [] {
      RelativeKept(Kept(false, Split(path)));
    }
    assert Split("") == [""] && [""][..0] == [];
  }

  // ---------- What a path means ----------

  /** Following one component from a directory, given by the names that lead to it from the root. */
  function Follow(at: seq<string>, c: string): seq<string> {
    if c == "" || c == "." then at
    else if c == ".." then (if at == [] then [] else at[..|at| - 1])
    else at + [c]
  }

  function Walk(at: seq<string>, cs: seq<string>): seq<string> {
    if cs == [] then at else Follow(Walk(at, cs[..|cs| - 1]), cs[|cs| - 1])
  }

  /** Where a path leads from a working directory. */
  function Resolve(from: seq<string>, path: string): seq<string> {
    Walk(if Absolute(path) then [] else from, Split(path))
  }

  lemma {:induction false} KeptLeadsThere(rooted: bool, at: seq<string>, cs: seq<string>)
    requires rooted ==> at == []
    requires forall c :: c in cs ==> NoSlash(c)
    ensures Walk(at, Kept(rooted, cs)) == Walk(at, cs)
    decreases |cs|
  {
    if cs != [] {
      var front, c := cs[..|cs| - 1], cs[|cs| - 1];
      KeptLeadsThere(rooted, at, front);
      KeptIsCanonical(rooted, front);
      var kept := Kept(rooted, front);
      assert (kept + [c])[..|kept|] == kept;
      if c == ".." && kept != [] && kept[|kept| - 1] != ".." {
        assert Walk(at, kept) == Walk(at, kept[..|kept| - 1]) + [kept[|kept| - 1]];
      }
    }
  }

  lemma {:induction false} WalkAfterSlash(at: seq<string>, cs: seq<string>)
    ensures Walk(at, [""] + cs) == Walk(at, cs)
    decreases |cs|
  {
    if cs == [] {
      assert [""] + cs == [""] && [""][..0] == [];
    } else {
      WalkAfterSlash(at, cs[..|cs| - 1]);
      assert ([""] + cs)[..|cs|] == [""] + cs[..|cs| - 1];
    }
  }

  /** Cleaning preserves where a path leads, from every directory and for every path. */
  lemma CleanPreservesMeaning(from: seq<string>, path: string)
    ensures Resolve(from, Clean(path)) == Resolve(from, path)
  {
    JoinSplit(path);
    JoinSplit(Clean(path));
    KeptIsCanonical(Absolute(path), Split(path));
    var kept := Kept(Absolute(path), Split(path));
    if Absolute(path) {
      AbsoluteKept(kept);
      SameKeptLeadsThere(true, [], Split(path), Split(Clean(path)));
    } else {
      if kept == [] { DotIsKept(); } else { RelativeKept(kept); }
      SameKeptLeadsThere(false, from, Split(path), Split(Clean(path)));
    }
  }

  lemma SameKeptLeadsThere(rooted: bool, at: seq<string>, cs: seq<string>, ds: seq<string>)
    requires rooted ==> at == []
    requires forall c :: c in cs || c in ds ==> NoSlash(c)
    requires Kept(rooted, cs) == Kept(rooted, ds)
    ensures Walk(at, cs) == Walk(at, ds)
  {
    KeptLeadsThere(rooted, at, cs);
    KeptLeadsThere(rooted, at, ds);
  }

  // ---------- Accepted mount paths ----------

  datatype PathReason = EmptyPath | RelativePath | UncleanPath

  function IsValidMountPath(path: string): Option<PathReason> {
    if path == "" then Some(EmptyPath)
    else if !Absolute(path) then Some(RelativePath)
    else if Clean(path) != path then Some(UncleanPath)
    else None
  }

  /** The root, or components that are never empty, `.` or `..`. */
  predicate Accepted(path: string) {
    path == "/" || (Absolute(path) && forall c :: c in Split(path[1..]) ==> Plain(c))
  }

  lemma {:induction false} PlainWalk(cs: seq<string>)
    requires forall i :: 0 <= i < |cs| ==> Plain(cs[i])
    ensures Walk([], cs) == cs
    decreases |cs|
  {
    if cs != [] {
      PlainWalk(cs[..|cs| - 1]);
    }
  }

  lemma PlainIsCanonical(cs: seq<string>)
    requires forall c :: c in cs ==> Plain(c)
    ensures Canonical(true, cs)
  {
    forall i | 0 <= i < |cs| ensures Plain(cs[i]) {
      assert cs[i] in cs;
    }
  }

  lemma RootIsClean()
    ensures Clean("/") == "/"
  {
    assert "/" + Join([]) == "/";
    AbsoluteKept([]);
  }

  lemma CleanIfAccepted(path: string)
    requires Accepted(path)
    ensures Clean(path) == path
  {
    if path == "/" {
      RootIsClean();
    } else {
      var cs := Split(path[1..]);
      JoinSplit(path[1..]);
      assert path == "/" + path[1..];
      PlainIsCanonical(cs);
      AbsoluteKept(cs);
    }
  }

  lemma AcceptedIfClean(path: string)
    requires Absolute(path) && Clean(path) == path
    ensures Accepted(path)
  {
    var kept := Kept(true, Split(path));
    JoinSplit(path);
    KeptIsCanonical(true, Split(path));
    assert path[1..] == Join(kept);
    if kept != [] {
      forall c | c in kept ensures NoSlash(c) {
      }
      SplitJoin(kept);
    }
  }

  /** Which paths are valid, and which reason each other path gets. */
  lemma ValidMountPathExact(path: string)
    ensures IsValidMountPath(path).None? <==> Accepted(path)
    ensures IsValidMountPath(path) == Some(EmptyPath) <==> path == ""
    ensures IsValidMountPath(path) == Some(RelativePath) <==> path != "" && path[0] != '/'
    ensures IsValidMountPath(path) == Some(UncleanPath) <==>
              Absolute(path) && path != "/" && exists c :: c in Split(path[1..]) && !Plain(c)
  {
    if Accepted(path) {
      CleanIfAccepted(path);
    } else if Absolute(path) && Clean(path) == path {
      AcceptedIfClean(path);
    }
  }

  /** The names a path lists after its first slash; the root lists none. */
  function Components(path: string): seq<string>
    requires Absolute(path)
  {
    if path == "/" then [] else Split(path[1..])
  }

  /** An accepted path lists exactly the directories from the root to its mount point, and is rebuilt from them. */
  lemma AcceptedRoundTrip(path: string)
    requires Accepted(path)
    ensures "/" + Join(Components(path)) == path
    ensures Resolve([], path) == Components(path)
  {
    var cs := Components(path);
    JoinSplit(path[1..]);
    assert path == "/" + path[1..];
    PlainIsCanonical(cs);
    AbsoluteKept(cs);
    JoinSplit(path);
    KeptLeadsThere(true, [], Split(path));
    PlainWalk(cs);
  }

  /** Every list of plain names is the list of one accepted path. */
  lemma ComponentsRoundTrip(cs: seq<string>)
    requires forall c :: c in cs ==> Plain(c)
    ensures Accepted("/" + Join(cs)) && Components("/" + Join(cs)) == cs
  {
    var path := "/" + Join(cs);
    assert path[1..] == Join(cs);
    if cs != [] {
      SplitJoin(cs);
      assert Plain(cs[0]);
    }
  }

  /** Different accepted strings lead to different places. */
  lemma AcceptedInjective(p: string, q: string)
    requires Accepted(p) && Accepted(q)
    ensures Resolve([], p) == Resolve([], q) <==> p == q
  {
    AcceptedRoundTrip(p);
    AcceptedRoundTrip(q);
  }

  /** The cleaned form of an absolute path is the one accepted spelling of its place. */
  lemma CleanIsTheAcceptedSpelling(path: string, q: string)
    requires Absolute(path) && Accepted(q)
    ensures Accepted(Clean(path))
    ensures Resolve([], q) == Resolve([], path) <==> q == Clean(path)
  {
    CleanIdempotent(path);
    AcceptedIfClean(Clean(path));
    CleanPreservesMeaning([], path);
    AcceptedInjective(q, Clean(path));
  }
}
