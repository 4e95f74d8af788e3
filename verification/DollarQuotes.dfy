/** Dollar quotes as wholes: a word between two `$`s, a body, and the same delimiter again. */
module DollarQuotes {
  import opened SqlLexer
  import opened SqlSplitter

  predicate IsLetter(c: char) {
    c == '_' || 'a' <= c <= 'z' || 'A' <= c <= 'Z'
  }

  /** Letters, digits and underscores, the first no digit. */
  predicate IsWord(tag: string) {
    forall k :: 0 <= k < |tag| ==> IsLetter(tag[k]) || (k > 0 && '0' <= tag[k] <= '9')
  }

  function Delimiter(tag: string): string {
    "$" + tag + "$"
  }

  function Quote(tag: string, body: string): string {
    Delimiter(tag) + body + Delimiter(tag)
  }

  /** The closing delimiter stands nowhere before the end of the quote. */
  ghost predicate ClosesAtEnd(tag: string, body: string) {
    forall i :: 0 <= i < |body| ==> !(Delimiter(tag) <= (body + Delimiter(tag))[i..])
  }

  lemma WordIsTag(tag: string)
    requires IsWord(tag)
    ensures IsTag(Delimiter(tag))
  {
    var d := Delimiter(tag);
    forall k | 0 < k < |d| - 1 ensures IsTagRune(d[k]) {
      assert d[k] == tag[k - 1];
    }
  }

  lemma {:induction false} RunOn(m: Mode, s: string, t: string)
    ensures Run(m, s + t) == Run(Run(m, s), t)
    ensures NoBoundary(m, s + t) <==> NoBoundary(m, s) && NoBoundary(Run(m, s), t)
    decreases |s|
  {
    if s == [] {
      assert s + t == t;
    } else {
      assert (s + t)[1..] == s[1..] + t;
      RunOn(Step(m, s[0]), s[1..], t);
    }
  }

  /** One more rune of the body. */
  lemma ReadsOne(m0: Mode, text: string, c: char, m: Mode)
    requires m == Run(m0, text) && NoBoundary(m0, text) && m.Dollar?
    ensures Run(m0, text + [c]) == Step(m, c) && NoBoundary(m0, text + [c])
  {
    RunOn(m0, text, [c]);
    assert [c][1..] == "";
  }

  /** In the body, `i` runes of which are read, the automaton waits for the delimiter and cuts nothing. */
  lemma {:induction false} ReadsBody(d: string, body: string, i: nat) returns (m: Mode)
    requires IsTag(d) && i <= |body| && forall k :: 0 <= k < |body| ==> !(d <= (body + d)[k..])
    ensures m == Run(Dollar(d, 0), body[..i]) && NoBoundary(Dollar(d, 0), body[..i]) && InBody(body + d, i, m, d)
    decreases i
  {
    if i == 0 {
      m := Dollar(d, 0);
    } else {
      var before := ReadsBody(d, body, i - 1);
      m := Step(before, body[i - 1]);
      ReadsOne(Dollar(d, 0), body[..i - 1], body[i - 1], before);
      assert body[..i] == body[..i - 1] + [body[i - 1]];
      assert (body + d)[i - 1] == body[i - 1];
      BodyStep(body + d, i - 1, before, d);
    }
  }

  lemma ReadsDelimiter(tag: string)
    requires IsTag(Delimiter(tag))
    ensures Run(Plain, Delimiter(tag)) == Dollar(Delimiter(tag), 0) && NoBoundary(Plain, Delimiter(tag))
  {
    var d := Delimiter(tag);
    assert d[..1] == "$" && d == [d[0]] + d[1..];
    assert Step(Plain, d[0]) == Tag("$");
    OpensDollar(Tag("$"), d, 1);
  }

  lemma ReadsBodyAndEnd(d: string, body: string)
    requires IsTag(d) && forall k :: 0 <= k < |body| ==> !(d <= (body + d)[k..])
    ensures Run(Dollar(d, 0), body + d) == Plain && NoBoundary(Dollar(d, 0), body + d)
  {
    var m := ReadsBody(d, body, |body|);
    assert body[..|body|] == body && (body + d)[|body|..] == d;
    BodyEnds(body + d, |body|, m, d);
    RunOn(Dollar(d, 0), body, d);
  }

  /** A dollar quote in ordinary text is read as one piece, whatever is in it, and ordinary text goes on after it. */
  lemma QuoteIsWhole(tag: string, body: string)
    requires IsWord(tag) && ClosesAtEnd(tag, body)
    ensures NoBoundary(Plain, Quote(tag, body)) && Run(Plain, Quote(tag, body)) == Plain
  {
    var d := Delimiter(tag);
    WordIsTag(tag);
    ReadsDelimiter(tag);
    ReadsBodyAndEnd(d, body);
    RunOn(Plain, d, body + d);
    assert d + (body + d) == Quote(tag, body);
  }

  lemma ReadsDo(rest: string)
    ensures Run(Start, "DO " + rest) == Run(Plain, rest)
           && (NoBoundary(Start, "DO " + rest) <==> NoBoundary(Plain, rest))
  {
    assert "DO "[1..] == "O " && "O "[1..] == " " && " "[1..] == "";
    RunOn(Start, "DO ", rest);
  }

  lemma {:induction false} OneSegment(m: Mode, s: string)
    requires NoBoundary(m, s)
    ensures Segments(m, s) == [s]
    decreases |s|
  {
    if s != [] {
      OneSegment(Step(m, s[0]), s[1..]);
      assert [s[0]] + s[1..] == s;
    }
  }

  lemma {:induction false} CutAfter(m: Mode, s: string, rest: string)
    requires NoBoundary(m, s) && InNormal(Run(m, s))
    ensures Segments(m, s + ";" + rest) == [s] + Segments(Plain, rest)
    decreases |s|
  {
    var script := s + ";" + rest;
    if s == [] {
      assert script[0] == ';' && script[1..] == rest;
      assert Step(m, ';') == Plain;
      SegmentsStep(m, script, Plain);
    } else {
      assert script[0] == s[0] && script[1..] == s[1..] + ";" + rest;
      CutAfter(Step(m, s[0]), s[1..], rest);
      SegmentsStep(m, script, Step(m, s[0]));
      assert [s[0]] + s[1..] == s;
    }
  }

  /** A `DO` block is one statement, with whatever `;`s in its body, and the rest of the script is split as it is. */
  lemma DoBlockIsOneStatement(tag: string, body: string, rest: string)
    requires IsWord(tag) && ClosesAtEnd(tag, body)
    ensures var block := "DO " + Quote(tag, body);
            Split(block) == [block] && Split(block + ";" + rest) == [block] + NonBlank(Segments(Plain, rest))
  {
    var block := "DO " + Quote(tag, body);
    QuoteIsWhole(tag, body);
    ReadsDo(Quote(tag, body));
    OneSegment(Start, block);
    CutAfter(Start, block, rest);
    assert block[0] == 'D';
    assert !IsBlank(block) by {
      assert TrimLeft(block) == block;
      StaysNonEmpty(block);
    }
    assert NonBlank([block]) == [block];
    var segs := Segments(Plain, rest);
    assert ([block] + segs)[1..] == segs;
  }

  lemma {:induction false} StaysNonEmpty(s: string)
    requires s != "" && !IsSpace(s[0])
    ensures TrimRight(s) != ""
    decreases |s|
  {
    if IsSpace(s[|s| - 1]) { StaysNonEmpty(s[..|s| - 1]); }
  }
}
