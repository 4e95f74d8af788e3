/** What cutting a script into statements keeps: every rune, the places of the cuts, and itself. */
module SplitProperties {
  import opened SqlLexer

  /** The script whose segments these are. */
  function Join(segs: seq<string>): string
    decreases |segs|
  {
    if segs == [] then "" else if |segs| == 1 then segs[0] else segs[0] + ";" + Join(segs[1..])
  }

  /** Read from `m`, no segment is cut and each but the last ends in ordinary text. */
  ghost predicate Fits(m: Mode, segs: seq<string>)
    decreases |segs|
  {
    segs == [] ||
    (NoBoundary(m, segs[0]) && (|segs| > 1 ==> InNormal(Run(m, segs[0])) && Fits(Plain, segs[1..])))
  }

  /** Conservation: the segments hold every rune of the script, in order, between the cut `;`s. */
  lemma {:induction false} SegmentsConserve(m: Mode, s: string)
    ensures Join(Segments(m, s)) == s && Fits(m, Segments(m, s))
    decreases |s|
  {
    if s != [] {
      var next := Step(m, s[0]);
      SegmentsConserve(next, s[1..]);
      SegmentsStep(m, s, next);
      OneMoreRune(m, s[0], s[1..], next, Segments(next, s[1..]));
      assert s == [s[0]] + s[1..];
    }
  }

  lemma OneMoreRune(m: Mode, c: char, text: string, next: Mode, rest: seq<string>)
    requires next == Step(m, c) && |rest| >= 1 && Join(rest) == text && Fits(next, rest)
    ensures var segs := if Boundary(m, c) then [""] + rest else Prepend([c], rest);
            Join(segs) == [c] + text && Fits(m, segs)
  {
    if Boundary(m, c) {
      assert ([""] + rest)[1..] == rest;
    } else {
      PrependFits(m, c, next, rest);
      JoinPrepend([c], rest);
    }
  }

  lemma JoinPrepend(text: string, rest: seq<string>)
    requires |rest| >= 1
    ensures Join(Prepend(text, rest)) == text + Join(rest)
  {
    var segs := Prepend(text, rest);
    assert segs[1..] == rest[1..];
    if |rest| > 1 { Associate(text, rest[0], Join(rest[1..])); }
  }

  lemma Associate(a: string, b: string, c: string)
    ensures (a + b) + ";" + c == a + (b + ";" + c)
  {
  }

  lemma PrependFits(m: Mode, c: char, next: Mode, rest: seq<string>)
    requires |rest| >= 1 && !Boundary(m, c) && next == Step(m, c) && Fits(next, rest)
    ensures Fits(m, Prepend([c], rest))
  {
    var head := [c] + rest[0];
    assert head[0] == c && head[1..] == rest[0];
    assert Prepend([c], rest)[1..] == rest[1..];
    assert NoBoundary(m, head) <==> NoBoundary(next, rest[0]);
    assert Run(m, head) == Run(next, rest[0]);
  }

  /** The segments are the only fitting way to write a script as a `;`-join. */
  lemma {:induction false} FitIsSegments(m: Mode, segs: seq<string>)
    requires |segs| >= 1 && Fits(m, segs)
    ensures Segments(m, Join(segs)) == segs
    decreases |segs|, |segs[0]|
  {
    if segs[0] != "" {
      FitIsSegments(Step(m, segs[0][0]), [segs[0][1..]] + segs[1..]);
      FitRune(m, segs);
    } else if |segs| > 1 {
      FitIsSegments(Plain, segs[1..]);
      FitCut(m, segs);
    }
  }

  lemma FitCut(m: Mode, segs: seq<string>)
    requires |segs| > 1 && segs[0] == "" && Fits(m, segs) && Segments(Plain, Join(segs[1..])) == segs[1..]
    ensures Segments(m, Join(segs)) == segs
  {
    var rest := segs[1..];
    assert Join(segs) == ";" + Join(rest);
    assert Join(segs)[1..] == Join(rest);
    SegmentsStep(m, Join(segs), Plain);
    assert segs == [""] + rest;
  }

  lemma FitRune(m: Mode, segs: seq<string>)
    requires |segs| >= 1 && segs[0] != "" && Fits(m, segs)
    requires var shorter := [segs[0][1..]] + segs[1..]; Segments(Step(m, segs[0][0]), Join(shorter)) == shorter
    ensures Segments(m, Join(segs)) == segs
  {
    var c, tail := segs[0][0], segs[0][1..];
    var shorter := [tail] + segs[1..];
    assert shorter[1..] == segs[1..] && [c] + tail == segs[0];
    assert Prepend([c], shorter) == segs;
    JoinPrepend([c], shorter);
    assert Join(segs)[0] == c && Join(segs)[1..] == Join(shorter);
    SegmentsStep(m, Join(segs), Step(m, c));
  }

  /** The offsets of the `;`s the segments were cut at, the first segment starting at `base`. */
  function Cuts(segs: seq<string>, base: nat): set<nat> {
    if |segs| <= 1 then {}
    else {base + |segs[0]|} + Cuts(segs[1..], base + |segs[0]| + 1)
  }

  /** Read from `m`, the automaton is in ordinary text at `i`, and there is a `;`. */
  predicate BoundaryAt(m: Mode, s: string, i: int) {
    0 <= i < |s| && Boundary(Run(m, s[..i]), s[i])
  }

  lemma BoundaryStep(m: Mode, s: string, i: int)
    requires s != []
    ensures BoundaryAt(m, s, i) <==> if i == 0 then Boundary(m, s[0]) else BoundaryAt(Step(m, s[0]), s[1..], i - 1)
  {
    if 0 < i < |s| {
      assert s[..i][1..] == s[1..][..i - 1];
    }
  }

  /** A `;` is a cut exactly when the automaton is in ordinary text there. */
  lemma {:induction false} CutsAreBoundaries(m: Mode, s: string, base: nat, k: nat)
    ensures k in Cuts(Segments(m, s), base) <==> BoundaryAt(m, s, k - base)
    decreases |s|
  {
    if s != [] {
      CutsAreBoundaries(Step(m, s[0]), s[1..], base + 1, k);
      CutsStep(m, s, base);
      BoundaryStep(m, s, k - base);
    }
  }

  lemma CutsStep(m: Mode, s: string, base: nat)
    requires s != []
    ensures Cuts(Segments(m, s), base)
         == (if Boundary(m, s[0]) then {base} else {}) + Cuts(Segments(Step(m, s[0]), s[1..]), base + 1)
  {
    var next := Step(m, s[0]);
    var rest := Segments(next, s[1..]);
    SegmentsStep(m, s, next);
    if Boundary(m, s[0]) {
      assert ([""] + rest)[1..] == rest;
    } else {
      assert Prepend([s[0]], rest)[1..] == rest[1..];
    }
  }

  /** Whether ordinary text alternates with the rest in the same way at the start of a script and after a cut. */
  ghost predicate SameLexing(s: string) {
    forall i :: 0 <= i <= |s| ==> InNormal(Run(Start, s[..i])) == InNormal(Run(Plain, s[..i]))
  }

  lemma Meet(m1: Mode, m2: Mode, s: string)
    requires InNormal(m1) && InNormal(m2) && (s != [] ==> Step(m1, s[0]) == Step(m2, s[0]))
    ensures NoBoundary(m1, s) == NoBoundary(m2, s) && InNormal(Run(m1, s)) == InNormal(Run(m2, s))
  {
  }

  lemma StartLikePlain(s: string)
    requires !("*/*" <= s)
    ensures NoBoundary(Start, s) == NoBoundary(Plain, s)
    ensures InNormal(Run(Start, s)) == InNormal(Run(Plain, s))
  {
    if s == [] || s[0] != '*' {
      Meet(Start, Plain, s);
    } else {
      var t := s[1..];
      if t == [] || t[0] != '/' {
        Meet(Plain, Star, t);
      } else {
        var u := t[1..];
        assert u != [] ==> s[..3] == ['*', '/', u[0]];
        Meet(Slash, Plain, u);
        assert Step(Plain, '/') == Slash && Step(Star, '/') == Plain;
      }
    }
  }

  /** Lexing does not depend on where a text stands exactly when it does not begin with a starred slash and a star. */
  lemma LexingIsPositionFree(s: string)
    ensures SameLexing(s) <==> !("*/*" <= s)
  {
    if "*/*" <= s {
      assert s[..3] == "*/*";
      assert InNormal(Run(Plain, "*/*")) && !InNormal(Run(Start, "*/*")) by {
        assert "*/*"[1..] == "/*" && "/*"[1..] == "*" && "*"[1..] == "";
      }
      assert !SameLexing(s);
    } else {
      forall i | 0 <= i <= |s|
        ensures InNormal(Run(Start, s[..i])) == InNormal(Run(Plain, s[..i]))
      {
        assert i >= 3 ==> s[..i][..3] == s[..3];
        StartLikePlain(s[..i]);
      }
    }
  }

  lemma {:induction false} FitsAt(m: Mode, segs: seq<string>, k: nat)
    requires Fits(m, segs) && k < |segs|
    ensures var at := if k == 0 then m else Plain;
            NoBoundary(at, segs[k]) && (k + 1 < |segs| ==> InNormal(Run(at, segs[k])))
    decreases k
  {
    if k > 0 {
      FitsAt(Plain, segs[1..], k - 1);
    }
  }

  lemma {:induction false} FromNonBlank(segs: seq<string>, p: string) returns (k: nat)
    requires p in NonBlank(segs)
    ensures k < |segs| && segs[k] == p && !IsBlank(p)
  {
    if !IsBlank(segs[0]) && p == segs[0] {
      k := 0;
    } else {
      k := FromNonBlank(segs[1..], p);
      k := k + 1;
    }
  }

  /** Splitting a statement again gives just that statement, if it reads the same on its own. */
  lemma ResplitIsIdentity(sql: string, p: string)
    requires p in Split(sql)
    requires p == Segments(Start, sql)[0] || !("*/*" <= p)
    ensures Split(p) == [p]
  {
    var segs := Segments(Start, sql);
    SegmentsConserve(Start, sql);
    var k := FromNonBlank(segs, p);
    if p == segs[0] {
      FitsAt(Start, segs, 0);
    } else {
      FitsAt(Start, segs, k);
      StartLikePlain(p);
    }
    FitIsSegments(Start, [p]);
    assert NonBlank([p]) == [p];
  }

  /** Without that condition it is not: this statement loses its last rune when it is split again. */
  lemma ResplitCanCut()
    ensures "*/*--*/;" in Split(";*/*--*/;") && Split("*/*--*/;") == ["*/*--*/"]
  {
    AfterACut("*/*--*/;");
    Alone("*/*--*/;", "*/*--*/");
  }

  lemma AfterACut(p: string)
    requires p == "*/*--*/;"
    ensures p in Split(";" + p)
  {
    OneStatementAfterACut(p);
    assert ["", p][1..] == [p] && [p][1..] == [];
    assert Join(["", p]) == ";" + p;
    FitIsSegments(Start, ["", p]);
    NotBlank(p);
    assert NonBlank([p]) == [p];
  }

  lemma OneStatementAfterACut(p: string)
    requires p == "*/*--*/;"
    ensures NoBoundary(Plain, p)
  {
    assert p[1..] == "/*--*/;" && "/*--*/;"[1..] == "*--*/;" && "*--*/;"[1..] == "--*/;" && "--*/;"[1..] == "-*/;"
        && "-*/;"[1..] == "*/;" && "*/;"[1..] == "/;" && "/;"[1..] == ";" && ";"[1..] == "";
    assert NoBoundary(Line, "*/;");
    assert NoBoundary(Star, "--*/;");
  }

  lemma Alone(p: string, q: string)
    requires p == "*/*--*/;" && q == "*/*--*/"
    ensures Split(p) == [q]
  {
    ClosedCommentAlone(q);
    assert [q, ""][1..] == [""] && [""][1..] == [];
    assert Join([q, ""]) == p;
    FitIsSegments(Start, [q, ""]);
    NotBlank(q);
    assert NonBlank([""]) == [];
  }

  lemma ClosedCommentAlone(q: string)
    requires q == "*/*--*/"
    ensures Run(Start, q) == Plain && NoBoundary(Start, q)
  {
    assert q[1..] == "/*--*/" && "/*--*/"[1..] == "*--*/" && "*--*/"[1..] == "--*/" && "--*/"[1..] == "-*/"
        && "-*/"[1..] == "*/" && "*/"[1..] == "/" && "/"[1..] == "";
    assert Run(Block, "*/") == Plain && NoBoundary(Block, "*/");
    assert Run(BlockStar, "--*/") == Plain && NoBoundary(BlockStar, "--*/");
  }

  lemma NotBlank(s: string)
    requires s != "" && !IsSpace(s[0])
    ensures !IsBlank(s)
    decreases |s|
  {
    if IsSpace(s[|s| - 1]) {
      assert s[..|s| - 1][0] == s[0];
      NotBlank(s[..|s| - 1]);
    }
  }

  // ----- Joining and splitting -----------------------------------------------------------------

  function Weight(segs: seq<string>): nat {
    if segs == [] then 0 else |segs[0]| + 1 + Weight(segs[1..])
  }

  lemma {:induction false} JoinLength(segs: seq<string>)
    requires segs != []
    ensures |Join(segs)| + 1 == Weight(segs)
  {
    if |segs| > 1 { JoinLength(segs[1..]); }
  }

  lemma {:induction false} NonBlankWeight(segs: seq<string>)
    ensures Weight(NonBlank(segs)) <= Weight(segs)
    ensures Weight(NonBlank(segs)) == Weight(segs) ==> NonBlank(segs) == segs
  {
    if segs != [] {
      NonBlankWeight(segs[1..]);
      var rest := NonBlank(segs[1..]);
      assert ([segs[0]] + rest)[1..] == rest;
      assert [] + rest == rest;
      assert [segs[0]] + segs[1..] == segs;
    }
  }

  lemma {:induction false} NonBlankKeepsAll(segs: seq<string>)
    ensures NonBlank(segs) == segs <==> forall p :: p in segs ==> !IsBlank(p)
  {
    if segs != [] {
      NonBlankKeepsAll(segs[1..]);
      var rest := NonBlank(segs[1..]);
      assert segs == [segs[0]] + segs[1..];
      NonBlankWeight(segs[1..]);
      if IsBlank(segs[0]) {
        assert NonBlank(segs) == rest;
        assert Weight(segs) > Weight(rest);
      }
    }
  }

  /** Splitting a join gives the pieces back exactly when they fit and none of them is blank. */
  lemma JoinThenSplit(pieces: seq<string>)
    ensures Split(Join(pieces)) == pieces <==> Fits(Start, pieces) && forall p :: p in pieces ==> !IsBlank(p)
  {
    if pieces == [] {
      assert Segments(Start, "") == [""] && NonBlank([""]) == [] by { assert [""][1..] == []; }
    } else {
      var segs := Segments(Start, Join(pieces));
      SegmentsConserve(Start, Join(pieces));
      if Split(Join(pieces)) == pieces {
        JoinLength(segs);
        JoinLength(pieces);
        NonBlankWeight(segs);
      }
      if Fits(Start, pieces) { FitIsSegments(Start, pieces); }
      NonBlankKeepsAll(pieces);
    }
  }

  /**
   A statement splits into just itself exactly if it does not begin with a starred slash and a star, or no cut
   follows the comment that these three runes then open.
   */
  lemma ResplitIff(sql: string, p: string)
    requires p in Split(sql)
    ensures Split(p) == [p] <==> !("*/*" <= p) || NoBoundary(BlockStar, p[3..])
  {
    var k := FromNonBlank(Segments(Start, sql), p);
    JoinThenSplit([p]);
    if "*/*" <= p {
      OpensAtStart(p);
    } else {
      ResplitIsIdentity(sql, p);
    }
  }

  lemma OpensAtStart(p: string)
    requires "*/*" <= p
    ensures NoBoundary(Start, p) == NoBoundary(BlockStar, p[3..])
  {
    assert p[0] == '*' && p[1] == '/' && p[2] == '*';
    assert p[1..][1..] == p[2..] && p[2..][1..] == p[3..];
    assert NoBoundary(Start, p) == NoBoundary(Plain, p[1..]);
    assert NoBoundary(Plain, p[1..]) == NoBoundary(Slash, p[2..]);
  }

  /** A text that is one statement on its own and, unless it comes last, is closed. */
  ghost predicate StandsAlone(p: string, last: bool) {
    !IsBlank(p) && NoBoundary(Start, p) && (!last ==> InNormal(Run(Start, p)))
  }

  lemma {:induction false} FitsPiecewise(m: Mode, pieces: seq<string>)
    requires m == Start || m == Plain
    requires forall k :: 0 <= k < |pieces| ==> (k == 0 && m == Start) || !("*/*" <= pieces[k])
    ensures Fits(m, pieces) <==> forall k :: 0 <= k < |pieces| ==>
              NoBoundary(Start, pieces[k]) && (k + 1 < |pieces| ==> InNormal(Run(Start, pieces[k])))
    decreases |pieces|
  {
    if pieces != [] {
      var rest := pieces[1..];
      if m == Plain { StartLikePlain(pieces[0]); }
      if rest != [] {
        FitsPiecewise(Plain, rest);
        assert forall k :: 0 <= k < |rest| ==> rest[k] == pieces[k + 1];
        assert pieces == [pieces[0]] + rest;
      }
    }
  }

  /** The round trip in terms of the pieces alone. */
  lemma RoundTrip(pieces: seq<string>)
    requires forall k :: 0 < k < |pieces| ==> !("*/*" <= pieces[k])
    ensures Split(Join(pieces)) == pieces
       <==> forall k :: 0 <= k < |pieces| ==> StandsAlone(pieces[k], k + 1 == |pieces|)
  {
    JoinThenSplit(pieces);
    FitsPiecewise(Start, pieces);
    assert (forall p :: p in pieces ==> !IsBlank(p)) <==> forall k :: 0 <= k < |pieces| ==> !IsBlank(pieces[k]);
  }
}
