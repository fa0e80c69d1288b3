/**
 * Character classes and a matcher for "deterministic" token patterns: a
 * pattern is a sequence of tokens followed by an ending, where every `+`
 * token is followed by something that cannot start with a character of its
 * own class. For such patterns PCRE's greedy, backtracking search can only
 * succeed with maximal runs, so a left-to-right maximal-munch scan finds the
 * same match and the same captures. The one place where backtracking does
 * matter, `\s+(.+\.\w+)\s?$`, is the `DottedName` ending, modelled by `Split`.
 */
module Lexer {
  import opened Wrappers

  /** The character classes used by the four listing patterns. */
  datatype Class =
    | Digit            // \d
    | DigitDash        // [\d-]
    | DigitColon       // [\d:]
    | DigitColonQuery  // [\d:?\d?]
    | Space            // \s
    | Word             // \w, [\w]
    | Perm             // [drxw-]
    | Meridiem         // [A|P]

  predicate IsDigit(c: char) { '0' <= c <= '9' }

  /** PCRE's \s: space, tab, line feed, vertical tab, form feed, carriage return. */
  predicate IsSpace(c: char) {
    c == ' ' || c == '\t' || c == '\n' || c == '\U{B}' || c == '\U{C}' || c == '\r'
  }

  /** PCRE's \w without the UTF flag: ASCII letters, digits and underscore. */
  predicate IsWord(c: char) { 'a' <= c <= 'z' || 'A' <= c <= 'Z' || IsDigit(c) || c == '_' }

  predicate In(c: char, k: Class) {
    match k
    case Digit => IsDigit(c)
    case DigitDash => IsDigit(c) || c == '-'
    case DigitColon => IsDigit(c) || c == ':'
    case DigitColonQuery => IsDigit(c) || c == ':' || c == '?'
    case Space => IsSpace(c)
    case Word => IsWord(c)
    case Perm => c == 'd' || c == 'r' || c == 'x' || c == 'w' || c == '-'
    case Meridiem => c == 'A' || c == '|' || c == 'P'
  }

  predicate All(s: string, k: Class) { forall i :: 0 <= i < |s| ==> In(s[i], k) }

  /** `s` does not continue a run of class `k`. */
  predicate Stops(s: string, k: Class) { s == [] || !In(s[0], k) }

  /** Length of the longest prefix of `s` made of characters of class `k`. */
  function Run(s: string, k: Class): (n: nat)
    ensures n <= |s| && All(s[..n], k) && Stops(s[n..], k)
  {
    if s != [] && In(s[0], k) then
      var n := 1 + Run(s[1..], k);
      assert s[..n] == [s[0]] + s[1..][..n - 1];
      assert s[n..] == s[1..][n - 1..];
      n
    else 0
  }

  lemma {:induction false} RunOfApp(a: string, b: string, k: Class)
    requires All(a, k) && Stops(b, k)
    ensures Run(a + b, k) == |a|
  {
    if a != [] {
      assert (a + b)[1..] == a[1..] + b;
      RunOfApp(a[1..], b, k);
    } else {
      assert a + b == b;
    }
  }

  lemma {:induction false} RunOfLonger(a: string, b: string, k: Class)
    requires Run(a, k) < |a|
    ensures Run(a + b, k) == Run(a, k)
  {
    var n := Run(a, k);
    assert a == a[..n] + a[n..];
    assert a + b == a[..n] + (a[n..] + b);
    RunOfApp(a[..n], a[n..] + b, k);
  }

  lemma {:induction false} RunStopsAt(s: string, k: Class, i: nat)
    requires i < |s| && !In(s[i], k)
    ensures Run(s, k) <= i
  {
    if s != [] && In(s[0], k) {
      RunStopsAt(s[1..], k, i - 1);
    }
  }

  /** Concatenation of a sequence of pieces. */
  function Concat(ps: seq<string>): string
  {
    if ps == [] then "" else ps[0] + Concat(ps[1..])
  }

  lemma ConcatThree(a: string, b: string, c: string)
    ensures Concat([a, b, c]) == a + (b + c)
  {
    calc {
      Concat([a, b, c]);
      a + Concat([a, b, c][1..]);
      { assert [a, b, c][1..] == [b, c]; }
      a + Concat([b, c]);
      { assert [b, c][1..] == [c]; }
      a + (b + Concat([c]));
      { assert [c][1..] == []; assert c + "" == c; }
      a + (b + c);
    }
  }

  // ---------------------------------------------------------------------
  // The dotted file name `.+\.\w+` of patterns 2 and 4

  /** Start of the maximal run of word characters that ends `n`. */
  function ExtStart(n: string): (r: nat)
    ensures r <= |n| && (forall i :: r <= i < |n| ==> IsWord(n[i]))
    ensures r == 0 || !IsWord(n[r - 1])
  {
    if |n| > 0 && IsWord(n[|n| - 1]) then ExtStart(n[..|n| - 1]) else |n|
  }

  lemma ExtStartUnique(n: string, r: nat)
    requires r <= |n| && (forall i :: r <= i < |n| ==> IsWord(n[i]))
    requires r == 0 || !IsWord(n[r - 1])
    ensures ExtStart(n) == r
  {
  }

  /**
   * `n` matches `.+\.\w+`: a non-empty stem without line feed, a dot, and a
   * non-empty run of word characters to the end (only the last dot can be
   * the one the pattern uses, since the extension cannot hold a dot).
   */
  predicate Dotted(n: string) {
    var j := ExtStart(n);
    2 <= j < |n| && n[j - 1] == '.' && '\n' !in n[..j - 1]
  }

  /** The trailing `\s?$` after a name. */
  predicate TailOk(t: string) { |t| <= 1 && All(t, Space) }

  /** Splits `u` into a dotted name and an optional final blank. */
  function NameTail(u: string): (r: Option<(string, string)>)
    ensures r.Some? ==> Dotted(r.value.0) && TailOk(r.value.1) && r.value.0 + r.value.1 == u
  {
    if |u| > 0 && IsSpace(u[|u| - 1]) && Dotted(u[..|u| - 1]) then
      assert u[..|u| - 1] + [u[|u| - 1]] == u;
      Some((u[..|u| - 1], [u[|u| - 1]]))
    else if Dotted(u) then
      assert u + "" == u;
      Some((u, ""))
    else None
  }

  lemma NameTailOf(v: string, t: string)
    requires |v| > 0 && IsWord(v[|v| - 1]) && TailOk(t)
    ensures NameTail(v + t).Some? <==> Dotted(v)
    ensures Dotted(v) ==> NameTail(v + t) == Some((v, t))
  {
    var u := v + t;
    if |t| == 1 {
      assert u[..|u| - 1] == v;
    } else {
      assert t == "" && u == v;
      assert !IsSpace(u[|u| - 1]);
    }
  }

  /**
   * PCRE's backtracking into `\s+` before `(.+\.\w+)\s?$`: starting from the
   * longest blank run, give one blank back to the name at a time until the
   * rest reads as a name with its optional final blank.
   */
  function Split(sep: string, u: string): (r: Option<(string, string)>)
    requires |sep| > 0
    ensures r.Some? ==> 0 < |r.value.0| <= |sep| && r.value.0 == sep[..|r.value.0|]
    ensures r.Some? ==> r.value.0 + r.value.1 == sep + u && NameTail(r.value.1).Some?
    ensures r.Some? && |r.value.0| < |sep| ==> |r.value.1| > 0 && NameTail(r.value.1[1..]).None?
    decreases |sep|
  {
    if NameTail(u).Some? then Some((sep, u))
    else if |sep| > 1 then
      var r := Split(sep[..|sep| - 1], [sep[|sep| - 1]] + u);
      assert sep[..|sep| - 1] + ([sep[|sep| - 1]] + u) == sep + u;
      assert r.Some? && |r.value.0| == |sep| - 1 ==> r.value.1 == [sep[|sep| - 1]] + u;
      r
    else None
  }

  lemma {:induction false} SplitFinds(s3: string, l: string, v: string)
    requires |s3| > 0
    requires NameTail(l + v).Some?
    requires forall j :: 1 <= j <= |l| ==> NameTail((l + v)[j..]).None?
    ensures Split(s3 + l, v) == Some((s3, l + v))
    decreases |l|
  {
    if |l| == 0 {
      assert s3 + l == s3 && l + v == v;
    } else {
      assert (l + v)[|l|..] == v;
      var l' := l[..|l| - 1];
      var v' := [l[|l| - 1]] + v;
      assert l' + v' == l + v;
      assert (s3 + l)[..|s3 + l| - 1] == s3 + l';
      assert (s3 + l)[|s3 + l| - 1] == l[|l| - 1];
      SplitFinds(s3, l', v');
    }
  }

  // ---------------------------------------------------------------------
  // Tokens, endings, patterns

  datatype Token =
    | Many(k: Class)      // k+
    | One(k: Class)       // k
    | Lit(text: string)   // literal text

  datatype Ending =
    | AtEnd          // $
    | OptSpaceAtEnd  // \s?$
    | DottedName     // \s+(.+\.\w+)\s?$

  /** Number of pieces an ending contributes (separator, name, tail, ...). */
  function Arity(e: Ending): nat
  {
    match e
    case AtEnd => 0
    case OptSpaceAtEnd => 1
    case DottedName => 3
  }

  predicate FitsToken(t: Token, piece: string) {
    match t
    case Many(k) => |piece| > 0 && All(piece, k)
    case One(k) => |piece| == 1 && In(piece[0], k)
    case Lit(text) => piece == text
  }

  /**
   * The pieces an ending matches. For `DottedName` the pieces are the blank
   * separator, the captured name and the optional final blank; the last
   * conjunct is PCRE's preference for the longest separator: the name starts
   * with a blank only when the name without it would not match.
   */
  predicate FitsEnding(e: Ending, ps: seq<string>) {
    match e
    case AtEnd => ps == []
    case OptSpaceAtEnd => |ps| == 1 && TailOk(ps[0])
    case DottedName =>
      && |ps| == 3 && |ps[0]| > 0 && All(ps[0], Space)
      && Dotted(ps[1]) && TailOk(ps[2])
      && !(IsSpace(ps[1][0]) && Dotted(ps[1][1..]))
  }

  /** `ps` is a decomposition of a line by the tokens `ts` followed by `e`. */
  predicate FitsAll(ts: seq<Token>, e: Ending, ps: seq<string>)
    decreases ts
  {
    if ts == [] then FitsEnding(e, ps)
    else |ps| > 0 && FitsToken(ts[0], ps[0]) && FitsAll(ts[1..], e, ps[1..])
  }

  lemma {:induction false} FitsAllShape(ts: seq<Token>, e: Ending, ps: seq<string>)
    requires FitsAll(ts, e, ps)
    ensures |ps| == |ts| + Arity(e)
    ensures forall i :: 0 <= i < |ts| ==> FitsToken(ts[i], ps[i])
    ensures FitsEnding(e, ps[|ts|..])
    decreases ts
  {
    if ts != [] {
      FitsAllShape(ts[1..], e, ps[1..]);
      assert forall i :: 1 <= i < |ts| ==> ts[1..][i - 1] == ts[i] && ps[1..][i - 1] == ps[i];
      assert ps[1..][|ts| - 1..] == ps[|ts|..];
    }
  }

  /** A match fails when its first token fails, or its second fails on what the first left. */
  lemma FailsEarly(ts: seq<Token>, e: Ending, s: string)
    requires |ts| >= 2
    requires Step(ts[0], s).None? || Step(ts[1], Step(ts[0], s).value.1).None?
    ensures MatchFrom(ts, e, s).None?
  {
    if Step(ts[0], s).Some? {
      assert ts[1..][0] == ts[1];
    }
  }

  // Determinism: every `+` token is followed by something that cannot start
  // with a character of its class.

  predicate Disjoint(k1: Class, k2: Class) {
    (k1 == Space) != (k2 == Space) || (k1 == DigitColon && k2 == Meridiem)
  }

  lemma DisjointSound(k1: Class, k2: Class, c: char)
    requires Disjoint(k1, k2)
    ensures !(In(c, k1) && In(c, k2))
  {
  }

  predicate Separated(k: Class, next: Token) {
    match next
    case Many(k2) => Disjoint(k, k2)
    case One(k2) => Disjoint(k, k2)
    case Lit(text) => |text| > 0 && !In(text[0], k)
  }

  predicate EndSeparated(k: Class, e: Ending) {
    e == AtEnd || Disjoint(k, Space)
  }

  predicate Deterministic(ts: seq<Token>, e: Ending)
    decreases ts
  {
    if ts == [] then true
    else
      && (ts[0].Many? ==> if |ts| > 1 then Separated(ts[0].k, ts[1]) else EndSeparated(ts[0].k, e))
      && Deterministic(ts[1..], e)
  }

  /** The condition `Deterministic` puts on the token at index `i`. */
  predicate Follows(ts: seq<Token>, e: Ending, i: nat)
    requires i < |ts|
  {
    ts[i].Many? ==> if i + 1 < |ts| then Separated(ts[i].k, ts[i + 1]) else EndSeparated(ts[i].k, e)
  }

  lemma {:induction false} DeterministicOf(ts: seq<Token>, e: Ending)
    requires forall i :: 0 <= i < |ts| ==> Follows(ts, e, i)
    ensures Deterministic(ts, e)
    decreases ts
  {
    if ts != [] {
      assert Follows(ts, e, 0);
      forall i | 0 <= i < |ts[1..]| ensures Follows(ts[1..], e, i) {
        assert Follows(ts, e, i + 1);
      }
      DeterministicOf(ts[1..], e);
    }
  }

  // ---------------------------------------------------------------------
  // The matcher

  /** Matches one token at the start of `s`; a `+` token takes the longest run. */
  function Step(t: Token, s: string): (r: Option<(string, string)>)
    ensures r.Some? ==> FitsToken(t, r.value.0) && r.value.0 + r.value.1 == s
    ensures r.Some? && t.Many? ==> Stops(r.value.1, t.k)
  {
    match t
    case Many(k) =>
      var n := Run(s, k);
      assert s[..n] + s[n..] == s;
      if n == 0 then None else Some((s[..n], s[n..]))
    case One(k) =>
      if |s| > 0 && In(s[0], k) then assert s[..1] + s[1..] == s; Some((s[..1], s[1..])) else None
    case Lit(text) =>
      if |text| <= |s| && s[..|text|] == text then
        assert s[..|text|] + s[|text|..] == s;
        Some((text, s[|text|..]))
      else None
  }

  lemma StepOf(t: Token, a: string, b: string)
    requires FitsToken(t, a) && (t.Many? ==> Stops(b, t.k))
    ensures Step(t, a + b) == Some((a, b))
  {
    match t
    case Many(k) => RunOfApp(a, b, k); assert (a + b)[..|a|] == a && (a + b)[|a|..] == b;
    case One(k) => assert (a + b)[..1] == a && (a + b)[1..] == b;
    case Lit(text) => assert (a + b)[..|text|] == a && (a + b)[|text|..] == b;
  }

  /** Matches an ending against the whole remainder `s` of the line. */
  function Finish(e: Ending, s: string): (r: Option<seq<string>>)
    ensures r.Some? ==> FitsEnding(e, r.value) && Concat(r.value) == s
  {
    match e
    case AtEnd => if s == [] then Some([]) else None
    case OptSpaceAtEnd =>
      if TailOk(s) then assert Concat([s]) == s + ""; Some([s]) else None
    case DottedName =>
      match Step(Many(Space), s)
      case None => None
      case Some((w, rest)) =>
        match Split(w, rest)
        case None => None
        case Some((sep, u)) =>
          var (name, tail) := NameTail(u).value;
          assert |u| > 0 ==> u[0] == name[0];
          assert IsSpace(name[0]) ==> |sep| < |w|;
          assert IsSpace(name[0]) ==> u[1..] == name[1..] + tail;
          NameTailOf(name, tail);
          NameTailOf(name[1..], tail);
          ConcatThree(sep, name, tail);
          Some([sep, name, tail])
  }

  lemma FinishOf(e: Ending, ps: seq<string>)
    requires FitsEnding(e, ps)
    ensures Finish(e, Concat(ps)) == Some(ps)
  {
    match e
    case AtEnd =>
    case OptSpaceAtEnd =>
      assert Concat(ps) == ps[0] + "" == ps[0];
      assert [ps[0]] == ps;
    case DottedName =>
      assert ps == [ps[0], ps[1], ps[2]];
      ConcatThree(ps[0], ps[1], ps[2]);
      DottedNameOf(ps[0], ps[1], ps[2]);
  }

  lemma {:induction false} RunAfter(a: string, x: string, k: Class)
    requires All(a, k)
    ensures Run(a + x, k) == |a| + Run(x, k)
  {
    if a == [] {
      assert a + x == x;
    } else {
      assert (a + x)[1..] == a[1..] + x;
      RunAfter(a[1..], x, k);
    }
  }

  lemma SliceApp(a: string, b: string, i: nat)
    requires i <= |b|
    ensures (a + b)[..|a| + i] == a + b[..i] && (a + b)[|a| + i..] == b[i..]
  {
  }

  lemma SliceLeft(a: string, b: string, i: nat)
    requires i <= |a|
    ensures (a + b)[..i] == a[..i] && (a + b)[i..] == a[i..] + b
  {
  }

  /** The blank run before a name ends where the name's own opening blanks end. */
  lemma {:induction false} BlankRunOf(sep: string, name: string, tail: string)
    requires |sep| > 0 && All(sep, Space) && Run(name, Space) < |name|
    ensures Step(Many(Space), sep + (name + tail))
         == Some((sep + name[..Run(name, Space)], name[Run(name, Space)..] + tail))
  {
    var n := Run(name, Space);
    var s := sep + (name + tail);
    RunOfLonger(name, tail, Space);
    RunAfter(sep, name + tail, Space);
    assert Run(s, Space) == |sep| + n;
    SliceApp(sep, name + tail, n);
    SliceLeft(name, tail, n);
    assert s[..|sep| + n] == sep + name[..n];
    assert s[|sep| + n..] == name[n..] + tail;
  }

  lemma {:induction false} DottedNameOf(sep: string, name: string, tail: string)
    requires |sep| > 0 && All(sep, Space) && TailOk(tail)
    requires Dotted(name) && !(IsSpace(name[0]) && Dotted(name[1..]))
    ensures Finish(DottedName, sep + (name + tail)) == Some([sep, name, tail])
  {
    var n := Run(name, Space);
    RunStopsAt(name, Space, ExtStart(name) - 1);
    BlankRunOf(sep, name, tail);
    NameTailOf(name, tail);
    SplitOfName(sep, name, tail);
    FinishDotted(sep + (name + tail), sep + name[..n], name[n..] + tail, sep, name + tail, name, tail);
  }

  /**
   * Giving the name's opening blank (at most one) back from the separator
   * leaves the separator `sep` and the name with its tail.
   */
  lemma {:induction false} SplitOfName(sep: string, name: string, tail: string)
    requires |sep| > 0 && TailOk(tail)
    requires Dotted(name) && !(IsSpace(name[0]) && Dotted(name[1..]))
    ensures Run(name, Space) < |name|
    ensures Split(sep + name[..Run(name, Space)], name[Run(name, Space)..] + tail) == Some((sep, name + tail))
  {
    var n := Run(name, Space);
    RunStopsAt(name, Space, ExtStart(name) - 1);
    LeadingBlanks(name);
    var l, v := name[..n], name[n..] + tail;
    assert l + v == name + tail by {
      assert name == l + name[n..];
      assert l + (name[n..] + tail) == (l + name[n..]) + tail;
    }
    NameTailOf(name, tail);
    if n == 1 {
      NoNameAfterBlank(name, tail);
      forall j | 1 <= j <= |l| ensures NameTail((l + v)[j..]).None? { assert j == 1; }
    }
    SplitFinds(sep, l, v);
  }

  /** A dotted name that is not dotted without its first character cannot be read from its second. */
  lemma {:induction false} NoNameAfterBlank(name: string, tail: string)
    requires Dotted(name) && !Dotted(name[1..]) && TailOk(tail)
    ensures NameTail((name + tail)[1..]).None?
  {
    assert (name + tail)[1..] == name[1..] + tail;
    assert name[1..][|name| - 2] == name[|name| - 1];
    NameTailOf(name[1..], tail);
  }

  /** How `Finish` reads a `DottedName` ending, step by step. */
  lemma FinishDotted(s: string, w: string, rest: string, sep: string, u: string, name: string, tail: string)
    requires Step(Many(Space), s) == Some((w, rest))
    requires Split(w, rest) == Some((sep, u)) && NameTail(u) == Some((name, tail))
    ensures Finish(DottedName, s) == Some([sep, name, tail])
  {
  }

  /** A canonical dotted name opens with at most one blank, and that one cannot be dropped. */
  lemma {:induction false} LeadingBlanks(name: string)
    requires Dotted(name) && !(IsSpace(name[0]) && Dotted(name[1..]))
    ensures Run(name, Space) <= 1
    ensures Run(name, Space) == 1 ==> !Dotted(name[1..])
  {
    var n := Run(name, Space);
    if n >= 1 { assert name[..n][0] == name[0]; }
    if n >= 2 { DropBlank(name); }
  }

  /** A dotted name that opens with two blanks is still dotted without the first. */
  lemma {:induction false} DropBlank(name: string)
    requires Dotted(name) && Run(name, Space) >= 2
    ensures Dotted(name[1..])
  {
    var e := ExtStart(name);
    RunStopsAt(name, Space, e - 1);
    var v := name[1..];
    ExtStartUnique(v, e - 1);
    var a, b := v[..e - 2], name[..e - 1];
    assert forall i :: 0 <= i < |a| ==> a[i] == b[i + 1];
  }

  /** Matches the tokens `ts`, then the ending `e`, against the whole of `s`. */
  function MatchFrom(ts: seq<Token>, e: Ending, s: string): (r: Option<seq<string>>)
    ensures r.Some? ==> FitsAll(ts, e, r.value) && Concat(r.value) == s
    ensures r.Some? ==> |r.value| == |ts| + Arity(e)
    decreases ts
  {
    if ts == [] then
      Finish(e, s)
    else
      match Step(ts[0], s)
      case None => None
      case Some((piece, rest)) =>
        match MatchFrom(ts[1..], e, rest)
        case None => None
        case Some(ps) =>
          assert ([piece] + ps)[1..] == ps;
          Some([piece] + ps)
  }

  /** Completeness: a deterministic pattern finds every decomposition that fits it. */
  lemma {:induction false} MatchFromOf(ts: seq<Token>, e: Ending, ps: seq<string>)
    requires Deterministic(ts, e) && FitsAll(ts, e, ps)
    ensures MatchFrom(ts, e, Concat(ps)) == Some(ps)
    decreases ts
  {
    if ts == [] {
      FinishOf(e, ps);
    } else {
      var rest := Concat(ps[1..]);
      assert Concat(ps) == ps[0] + rest;
      if ts[0].Many? {
        StartsWith(ts, e, ps);
      }
      StepOf(ts[0], ps[0], rest);
      MatchFromOf(ts[1..], e, ps[1..]);
      assert [ps[0]] + ps[1..] == ps;
    }
  }

  /** After a `+` token, the rest of a fitting line does not continue its run. */
  lemma StartsWith(ts: seq<Token>, e: Ending, ps: seq<string>)
    requires ts != [] && ts[0].Many? && Deterministic(ts, e) && FitsAll(ts, e, ps)
    ensures Stops(Concat(ps[1..]), ts[0].k)
  {
    var k := ts[0].k;
    var rest := ps[1..];
    if |ts| > 1 {
      assert FitsToken(ts[1], rest[0]);
      assert |rest[0]| > 0;
      assert Concat(rest) == rest[0] + Concat(rest[1..]);
      assert Concat(rest)[0] == rest[0][0];
      match ts[1]
      case Many(k2) => DisjointSound(k, k2, rest[0][0]);
      case One(k2) => DisjointSound(k, k2, rest[0][0]);
      case Lit(text) =>
    } else {
      assert FitsEnding(e, rest);
      match e
      case AtEnd =>
      case OptSpaceAtEnd =>
        assert Concat(rest) == rest[0] + "";
        if |rest[0]| > 0 { DisjointSound(k, Space, rest[0][0]); }
      case DottedName =>
        assert Concat(rest) == rest[0] + Concat(rest[1..]);
        DisjointSound(k, Space, rest[0][0]);
    }
  }

  /** Both directions: for a deterministic pattern the match is exactly the fitting decomposition. */
  lemma MatchFromIff(ts: seq<Token>, e: Ending, s: string, ps: seq<string>)
    requires Deterministic(ts, e)
    ensures MatchFrom(ts, e, s) == Some(ps) <==> FitsAll(ts, e, ps) && Concat(ps) == s
  {
    if FitsAll(ts, e, ps) && Concat(ps) == s { MatchFromOf(ts, e, ps); }
  }
}
