/**
 * The directory-tree builder of FTP::mkdir, on values: which paths it
 * probes, which of them it asks the server to create, and which directories
 * exist afterwards. The class method in module Client runs the walk and is
 * proved against these functions.
 */
module Tree {
  import opened Paths

  /**
   * The paths the foreach of mkdir visits: `$root . $folder` for each kept
   * segment, where `$root` starts at `prefix` and grows by `$folder . '/'`.
   */
  function Walk(segs: seq<string>, prefix: string): (ps: seq<string>)
    ensures |ps| == |segs|
    decreases |segs|
  {
    if segs == [] then [] else [prefix + segs[0]] + Walk(segs[1..], prefix + segs[0] + "/")
  }

  /** One step of the walk: visit `prefix . segs[i]`, then go on under that path and a '/'. */
  lemma WalkStep(segs: seq<string>, i: nat, prefix: string)
    requires i < |segs|
    ensures Walk(segs[i..], prefix) == [prefix + segs[i]] + Walk(segs[i + 1..], prefix + segs[i] + "/")
  {
    assert segs[i..][1..] == segs[i + 1..];
  }

  /**
   * One foreach step on the walk already done: the path visited now is
   * longer than every earlier one, so it was not visited before, and the
   * walk goes on under it and a '/'.
   */
  lemma {:induction false} WalkAdvance(segs: seq<string>, i: nat, acc: string, done: seq<string>)
    requires i < |segs| && Walk(segs, "") == done + Walk(segs[i..], acc)
    requires forall k :: 0 <= k < |done| ==> |done[k]| < |acc|
    ensures acc + segs[i] !in done
    ensures Walk(segs, "") == (done + [acc + segs[i]]) + Walk(segs[i + 1..], acc + segs[i] + "/")
    ensures forall k :: 0 <= k < |done| + 1 ==> |(done + [acc + segs[i]])[k]| < |acc + segs[i] + "/"|
  {
    WalkStep(segs, i, acc);
    var p := acc + segs[i];
    assert done + ([p] + Walk(segs[i + 1..], acc + segs[i] + "/"))
        == (done + [p]) + Walk(segs[i + 1..], acc + segs[i] + "/");
  }

  /** The i-th visited path is the first i + 1 segments joined with '/', after `prefix`. */
  lemma {:induction false} WalkJoins(segs: seq<string>, prefix: string, i: nat)
    requires i < |segs|
    ensures Walk(segs, prefix)[i] == prefix + Implode(segs[..i + 1])
    decreases i
  {
    if i > 0 {
      var next := prefix + segs[0] + "/";
      WalkJoins(segs[1..], next, i - 1);
      assert segs[1..][..i] == segs[..i + 1][1..];
      assert Implode(segs[..i + 1]) == segs[0] + "/" + Implode(segs[..i + 1][1..]);
    }
  }

  /** The paths of `ps` that are not in `d`, in their order: the ones the walk creates. */
  function Missing(ps: seq<string>, d: set<string>): (r: seq<string>)
    ensures |r| <= |ps|
    decreases |ps|
  {
    if ps == [] then []
    else
      var init := Missing(ps[..|ps| - 1], d);
      if ps[|ps| - 1] in d then init else init + [ps[|ps| - 1]]
  }

  /** A path is created exactly when it is visited and not already a directory. */
  lemma {:induction false} MissingIff(ps: seq<string>, d: set<string>, p: string)
    ensures p in Missing(ps, d) <==> p in ps && p !in d
    decreases |ps|
  {
    if ps != [] {
      var init := ps[..|ps| - 1];
      MissingIff(init, d, p);
      assert ps == init + [ps[|ps| - 1]];
    }
  }

  /** Visiting one more path creates it exactly when it does not exist. */
  lemma MissingSnoc(ps: seq<string>, p: string, d: set<string>)
    ensures Missing(ps + [p], d) == Missing(ps, d) + (if p in d then [] else [p])
  {
    assert (ps + [p])[..|ps|] == ps;
  }

  /** One more created path adds that path unless the server refuses it. */
  lemma GrowSnoc(d: set<string>, plan: seq<string>, p: string, refused: set<string>)
    ensures Grow(d, plan + [p], refused) == Grow(d, plan, refused) + (if p in refused then {} else {p})
  {
  }

  /**
   * Visiting a path the walk has not visited before: it exists exactly when
   * it existed at the start, it is created exactly when it did not, and it
   * is a directory afterwards unless the server refuses it.
   */
  lemma Visit(done: seq<string>, p: string, d: set<string>, refused: set<string>)
    requires p !in done
    ensures p in Grow(d, Missing(done, d), refused) <==> p in d
    ensures Missing(done + [p], d) == Missing(done, d) + (if p in d then [] else [p])
    ensures Grow(d, Missing(done + [p], d), refused)
         == Grow(d, Missing(done, d), refused) + (if p in d || p in refused then {} else {p})
  {
    MissingIff(done, d, p);
    MissingSnoc(done, p, d);
  }

  /** The creations keep the visiting order: Missing distributes over concatenation. */
  lemma {:induction false} MissingApp(a: seq<string>, b: seq<string>, d: set<string>)
    ensures Missing(a + b, d) == Missing(a, d) + Missing(b, d)
    decreases |b|
  {
    if b != [] {
      var b0 := b[..|b| - 1];
      assert (a + b)[..|a + b| - 1] == a + b0;
      MissingApp(a, b0, d);
    } else {
      assert a + b == a;
    }
  }

  /**
   * The paths mkdir asks the server to create, given the directories `d`
   * that exist: none when the whole path is a directory; the missing
   * prefixes when the path has a '/' after its first character; otherwise
   * the path itself, with no probe.
   */
  function MkdirPlan(path: string, d: set<string>): (plan: seq<string>)
    ensures path in d ==> plan == []
    ensures forall p :: p in plan ==> p !in d
  {
    if path in d then []
    else if SlashAfterFirst(path) then
      var ps := Walk(Segments(path), "");
      assert forall p :: p in Missing(ps, d) ==> p !in d by {
        forall p | p in Missing(ps, d) ensures p !in d { MissingIff(ps, d, p); }
      }
      Missing(ps, d)
    else [path]
  }

  /** The directories after creating `plan`, where the server refuses the paths in `refused`. */
  function Grow(d: set<string>, plan: seq<string>, refused: set<string>): (d': set<string>)
    ensures d <= d'
    ensures forall p :: p in d' ==> p in d || (p in plan && p !in refused)
  {
    d + (set p | p in plan && p !in refused)
  }

  /** On the walk path, every visited prefix is created when missing and never re-created when present. */
  lemma WalkCreatesMissing(path: string, d: set<string>, p: string)
    requires path !in d && SlashAfterFirst(path)
    ensures p in MkdirPlan(path, d) <==> p in Walk(Segments(path), "") && p !in d
  {
    MissingIff(Walk(Segments(path), ""), d, p);
  }

  /** With a server that refuses nothing, every visited prefix is a directory afterwards. */
  lemma WalkPrefixesExist(path: string, d: set<string>, i: nat)
    requires SlashAfterFirst(path) && path !in d && i < |Segments(path)|
    ensures Implode(Segments(path)[..i + 1]) in Grow(d, MkdirPlan(path, d), {})
  {
    var ps := Walk(Segments(path), "");
    WalkJoins(Segments(path), "", i);
    assert ps[i] == Implode(Segments(path)[..i + 1]);
    MissingIff(ps, d, ps[i]);
  }

  /** Without refusals a second mkdir of the same path asks for nothing. */
  lemma MkdirSettles(path: string, d: set<string>)
    ensures MkdirPlan(path, Grow(d, MkdirPlan(path, d), {})) == []
  {
    var d' := Grow(d, MkdirPlan(path, d), {});
    if path !in d && SlashAfterFirst(path) && path !in d' {
      var ps := Walk(Segments(path), "");
      forall p | p in ps ensures p in d' { MissingIff(ps, d, p); }
      EmptyMissing(ps, d');
    }
  }

  lemma {:induction false} EmptyMissing(ps: seq<string>, d: set<string>)
    requires forall p :: p in ps ==> p in d
    ensures Missing(ps, d) == []
    decreases |ps|
  {
    if ps != [] {
      assert forall p :: p in ps[..|ps| - 1] ==> p in ps;
      EmptyMissing(ps[..|ps| - 1], d);
    }
  }

  /** Nothing in `ps` exists yet: every visited path is created. */
  lemma {:induction false} MissingAll(ps: seq<string>, d: set<string>)
    requires forall p :: p in ps ==> p !in d
    ensures Missing(ps, d) == ps
    decreases |ps|
  {
    if ps != [] {
      assert forall p :: p in ps[..|ps| - 1] ==> p in ps;
      MissingAll(ps[..|ps| - 1], d);
      assert ps[..|ps| - 1] + [ps[|ps| - 1]] == ps;
    }
  }

  /** array_filter drops the segment "0" as well as the empty ones. */
  lemma SegmentsDropZero()
    ensures Segments("a/0/c") == ["a", "c"]
  {
    ExplodeZero();
    KeepZero();
  }

  lemma ExplodeZero()
    ensures Explode("a/0/c") == ["a"] + (["0"] + ["c"])
  {
    assert "a/0/c" == "a" + "/" + ("0" + "/" + "c");
    ExplodeSolid("c");
    ExplodeSlash("0", "c");
    ExplodeSlash("a", "0/c");
  }

  lemma KeepZero()
    ensures Keep(["a"] + (["0"] + ["c"])) == ["a", "c"]
  {
    KeepOne("0");
    KeepOne("c");
    KeepApp(["0"], ["c"]);
    assert Keep(["0"] + ["c"]) == ["c"];
    KeepOne("a");
    KeepApp(["a"], ["0"] + ["c"]);
  }

  lemma WalkTwo()
    ensures Walk(["a", "c"], "") == ["a", "a/c"]
  {
    assert ["a", "c"][1..] == ["c"] && ["c"][1..] == [];
    assert "" + "a" == "a" && "" + "a" + "/" == "a/" && "a/" + "c" == "a/c";
    assert Walk(["c"], "a/") == ["a/c"];
  }

  /** A nested path on an empty server: each prefix in turn, the segment "0" dropped. */
  lemma MkdirNested()
    ensures MkdirPlan("a/0/c", {}) == ["a", "a/c"]
    ensures MkdirPlan("a/0/c", {"a"}) == ["a/c"]
  {
    SegmentsDropZero();
    assert SlashAfterFirst("a/0/c") by { assert "a/0/c"[1..][0] == '/'; }
    var ps := Walk(["a", "c"], "");
    WalkTwo();
    MissingAll(ps, {});
    MissingApp(["a"], ["a/c"], {"a"});
    assert ps == ["a"] + ["a/c"];
    MissingAll(["a/c"], {"a"});
    assert Missing(["a"], {"a"}) == Missing([], {"a"}) by { assert ["a"][..0] == []; }
  }

  lemma ExplodeThree()
    ensures Explode("a/b/c") == ["a"] + (["b"] + ["c"])
  {
    assert "a/b/c" == "a" + "/" + ("b" + "/" + "c");
    ExplodeSolid("c");
    ExplodeSlash("b", "c");
    ExplodeSlash("a", "b/c");
  }

  lemma SegmentsThree()
    ensures Segments("a/b/c") == ["a", "b", "c"]
  {
    ExplodeThree();
    KeepThree();
  }

  lemma KeepThree()
    ensures Keep(["a"] + (["b"] + ["c"])) == ["a", "b", "c"]
  {
    var ps := ["a"] + (["b"] + ["c"]);
    assert ps == ["a", "b", "c"];
    assert ps[1..] == ["b", "c"] && ps[1..][1..] == ["c"] && ps[1..][1..][1..] == [];
    assert Keep(["c"]) == ["c"];
    assert Keep(["b", "c"]) == ["b", "c"];
  }

  lemma WalkThree()
    ensures Walk(["a", "b", "c"], "") == ["a", "a/b", "a/b/c"]
  {
    assert ["a", "b", "c"][1..] == ["b", "c"] && ["b", "c"][1..] == ["c"] && ["c"][1..] == [];
    assert "" + "a" == "a" && "" + "a" + "/" == "a/" && "a/" + "b" == "a/b";
    assert "a/" + "b" + "/" == "a/b/" && "a/b/" + "c" == "a/b/c";
    assert Walk(["c"], "a/b/") == ["a/b/c"];
    assert Walk(["b", "c"], "a/") == ["a/b", "a/b/c"];
  }

  /**
   * Three missing levels on an empty server: three creations, outermost
   * first, after which the path is a directory.
   */
  lemma MkdirThreeLevels()
    ensures MkdirPlan("a/b/c", {}) == ["a", "a/b", "a/b/c"]
    ensures "a/b/c" in Grow({}, MkdirPlan("a/b/c", {}), {})
  {
    SegmentsThree();
    WalkThree();
    assert SlashAfterFirst("a/b/c") by { assert "a/b/c"[1..][0] == '/'; }
    MissingAll(["a", "a/b", "a/b/c"], {});
  }

  /**
   * A missing path without a '/' after its first character is created in
   * one call, without probing or creating any of its parts.
   */
  lemma MkdirSingle(path: string, d: set<string>)
    requires path !in d && !SlashAfterFirst(path)
    ensures MkdirPlan(path, d) == [path]
  {
  }
}
