/**
 * String and path helpers of the FTP session: PHP's explode/implode on '/',
 * the directory/filename split of Put and Get, the leading-slash fix-ups of
 * DeleteFile, DeleteDir and GetDetailedList, and rtrim($dir, '/').
 */
module Paths {
  import opened Wrappers

  /** PHP explode('/', s): the pieces between slashes; never empty. */
  function Explode(s: string): (parts: seq<string>)
    ensures |parts| >= 1
    ensures forall i :: 0 <= i < |parts| ==> '/' !in parts[i]
  {
    if s == [] then [""]
    else
      var rest := Explode(s[1..]);
      if s[0] == '/' then [""] + rest
      else
        assert forall i :: 1 <= i < |rest| ==> ([[s[0]] + rest[0]] + rest[1..])[i] == rest[i];
        [[s[0]] + rest[0]] + rest[1..]
  }

  /** PHP implode('/', parts). */
  function Implode(parts: seq<string>): string
  {
    if parts == [] then ""
    else if |parts| == 1 then parts[0]
    else parts[0] + "/" + Implode(parts[1..])
  }

  /** implode undoes explode. */
  lemma {:induction false} ImplodeExplode(s: string)
    ensures Implode(Explode(s)) == s
  {
    if s != [] {
      var rest := Explode(s[1..]);
      ImplodeExplode(s[1..]);
      if s[0] == '/' {
        assert ([""] + rest)[1..] == rest;
        assert s == "" + "/" + s[1..];
      } else if |rest| == 1 {
        assert s == [s[0]] + s[1..];
      } else {
        var parts := [[s[0]] + rest[0]] + rest[1..];
        assert parts[1..] == rest[1..];
        assert Implode(rest) == rest[0] + "/" + Implode(rest[1..]);
        assert s == [s[0]] + s[1..];
      }
    }
  }

  lemma {:induction false} ExplodeSolid(a: string)
    requires '/' !in a
    ensures Explode(a) == [a]
  {
    if a != [] {
      assert '/' !in a[1..] by { assert forall c :: c in a[1..] ==> c in a; }
      ExplodeSolid(a[1..]);
      assert [a[0]] + a[1..] == a;
    }
  }

  lemma {:induction false} ExplodeSlash(a: string, b: string)
    requires '/' !in a
    ensures Explode(a + "/" + b) == [a] + Explode(b)
  {
    if a == [] {
      assert a + "/" + b == "/" + b;
      assert ("/" + b)[1..] == b;
    } else {
      assert '/' !in a[1..] by { assert forall c :: c in a[1..] ==> c in a; }
      assert (a + "/" + b)[1..] == a[1..] + "/" + b;
      ExplodeSlash(a[1..], b);
      var rest := Explode(a[1..] + "/" + b);
      assert rest == [a[1..]] + Explode(b);
      assert (a + "/" + b)[0] == a[0] && a[0] != '/';
      assert Explode(a + "/" + b) == [[a[0]] + rest[0]] + rest[1..];
      assert rest[0] == a[1..] && rest[1..] == Explode(b);
      assert [a[0]] + a[1..] == a;
    }
  }

  /** explode undoes implode of slash-free pieces. */
  lemma {:induction false} ExplodeImplode(parts: seq<string>)
    requires |parts| >= 1
    requires forall i :: 0 <= i < |parts| ==> '/' !in parts[i]
    ensures Explode(Implode(parts)) == parts
  {
    if |parts| == 1 {
      ExplodeSolid(parts[0]);
    } else {
      ExplodeImplode(parts[1..]);
      ExplodeSlash(parts[0], Implode(parts[1..]));
      assert [parts[0]] + parts[1..] == parts;
    }
  }

  /** How implode grows when one more piece is appended. */
  lemma {:induction false} ImplodeSnoc(parts: seq<string>, x: string)
    requires |parts| >= 1
    ensures Implode(parts + [x]) == Implode(parts) + "/" + x
  {
    if |parts| == 1 {
      assert (parts + [x])[1..] == [x];
    } else {
      assert (parts + [x])[1..] == parts[1..] + [x];
      ImplodeSnoc(parts[1..], x);
    }
  }

  /**
   * Put and Get: explode, array_pop the filename, implode the rest as the
   * directory.
   */
  function SplitRemote(remote: string): (r: (string, string))
  {
    var parts := Explode(remote);
    (Implode(parts[..|parts| - 1]), parts[|parts| - 1])
  }

  /** The filename is the text after the last '/', the directory the text before it. */
  lemma SplitRemoteParts(remote: string)
    ensures '/' !in SplitRemote(remote).1
    ensures '/' in remote ==> SplitRemote(remote).0 + "/" + SplitRemote(remote).1 == remote
    ensures '/' !in remote ==> SplitRemote(remote) == ("", remote)
  {
    var parts := Explode(remote);
    ImplodeExplode(remote);
    if |parts| == 1 {
      assert Implode(parts) == parts[0];
      if '/' in remote { assert false; }
    } else {
      var init := parts[..|parts| - 1];
      assert init + [parts[|parts| - 1]] == parts;
      ImplodeSnoc(init, parts[|parts| - 1]);
      if '/' !in remote {
        ExplodeSolid(remote);
      }
    }
  }

  /** PHP's empty() on a string: true for "" and for "0". */
  predicate PhpEmpty(s: string) { s == "" || s == "0" }

  /**
   * `$x[0] == '/' ? $x : '/' . $x` as DeleteFile and DeleteDir write it
   * (with strlen guarding the empty string).
   */
  function EnsureLeadingSlash(p: string): (r: string)
    ensures |r| > 0 && r[0] == '/'
    ensures r == p || r == "/" + p
    ensures |p| > 0 && p[0] == '/' <==> r == p
  {
    if |p| > 0 && p[0] == '/' then p else "/" + p
  }

  /**
   * The path DeleteFile and DeleteDir hand to the server: none for "/",
   * otherwise `ftp_root` followed by the argument with a leading '/'.
   */
  function DeleteTarget(root: string, p: string): (r: Option<string>)
    ensures r.None? <==> p == "/"
    ensures r.Some? && |p| > 0 && p[0] == '/' ==> r.value == root + p
    ensures r.Some? && !(|p| > 0 && p[0] == '/') ==> r.value == root + "/" + p
  {
    if p == "/" then None else Some(root + EnsureLeadingSlash(p))
  }

  /**
   * GetDetailedList's normalisation of $dir: prefix '/' unless the string is
   * empty or already starts with '/'.
   */
  function NormalizeDir(d: string): (r: string)
    ensures |r| > 0 ==> r[0] == '/'
    ensures d == "" ==> r == ""
    ensures |d| > 0 ==> r == EnsureLeadingSlash(d)
  {
    if |d| > 0 && d[0] != '/' then "/" + d else d
  }

  /** Normalising twice changes nothing more. */
  lemma NormalizeDirIdempotent(d: string)
    ensures NormalizeDir(NormalizeDir(d)) == NormalizeDir(d)
  {
  }

  /** PHP rtrim(s, '/'): drop every trailing '/'. */
  function RTrimSlash(s: string): (r: string)
    ensures |r| <= |s| && r == s[..|r|]
    ensures r == [] || r[|r| - 1] != '/'
    ensures forall i :: |r| <= i < |s| ==> s[i] == '/'
  {
    if |s| > 0 && s[|s| - 1] == '/' then RTrimSlash(s[..|s| - 1]) else s
  }

  /** strpos($dir, '/', 1) is truthy: a '/' at position 1 or later. */
  predicate SlashAfterFirst(s: string) { |s| > 1 && '/' in s[1..] }

  /** array_filter over the exploded pieces: PHP drops the falsy strings "" and "0". */
  function Segments(path: string): (segs: seq<string>)
    ensures forall i :: 0 <= i < |segs| ==> segs[i] != "" && segs[i] != "0" && '/' !in segs[i]
  {
    Keep(Explode(path))
  }

  function Keep(parts: seq<string>): (r: seq<string>)
    ensures forall i :: 0 <= i < |r| ==> r[i] in parts && !PhpEmpty(r[i])
    ensures forall x :: x in parts && !PhpEmpty(x) ==> x in r
  {
    if parts == [] then []
    else
      var rest := Keep(parts[1..]);
      assert forall x :: x in parts[1..] ==> x in parts;
      assert forall x :: x in parts ==> x == parts[0] || x in parts[1..];
      if PhpEmpty(parts[0]) then rest else [parts[0]] + rest
  }

  /** array_filter keeps the order of what it keeps: it distributes over concatenation. */
  lemma {:induction false} KeepApp(a: seq<string>, b: seq<string>)
    ensures Keep(a + b) == Keep(a) + Keep(b)
    decreases |a|
  {
    if a == [] {
      assert a + b == b;
    } else {
      var ab := a + b;
      assert ab[0] == a[0] && ab[1..] == a[1..] + b;
      KeepApp(a[1..], b);
      if !PhpEmpty(a[0]) {
        calc {
          Keep(ab);
          [a[0]] + Keep(a[1..] + b);
          [a[0]] + (Keep(a[1..]) + Keep(b));
          ([a[0]] + Keep(a[1..])) + Keep(b);
        }
      }
    }
  }

  /** array_filter on one piece: dropped exactly when PHP deems it empty. */
  lemma KeepOne(x: string)
    ensures Keep([x]) == if PhpEmpty(x) then [] else [x]
  {
    assert [x][1..] == [];
  }
}
