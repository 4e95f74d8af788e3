/** The splitter itself: nested loops over one index, a builder and a result list. */
module SqlSplitter {
  import opened SqlLexer

  /** What `dollarTag` answers at index `i`: the delimiter that starts there, if one does. */
  ghost predicate TagAt(runes: seq<char>, i: nat, tag: string) {
    i <= |runes| && IsTag(tag) && tag <= runes[i..]
  }

  method DollarTag(runes: seq<char>, i: nat) returns (tag: string, ok: bool)
    requires i < |runes|
    ensures ok ==> TagAt(runes, i, tag)
    ensures !ok ==> forall t :: !TagAt(runes, i, t)
  {
    if runes[i] != '$' {
      return "", false;
    }
    for j := i + 1 to |runes|
      invariant forall k :: i < k < j ==> IsTagRune(runes[k])
    {
      if runes[j] == '$' {
        tag := runes[i..j + 1];
        return tag, true;
      }
      if !IsTagRune(runes[j]) {
        forall t ensures !TagAt(runes, i, t) {
          if TagAt(runes, i, t) { TagEndsAtDollar(runes, i, t, j); }
        }
        return "", false;
      }
    }
    forall t ensures !TagAt(runes, i, t) {
      if TagAt(runes, i, t) { TagEndsAtDollar(runes, i, t, |runes|); }
    }
    return "", false;
  }

  lemma TagEndsAtDollar(runes: seq<char>, i: nat, tag: string, j: nat)
    requires TagAt(runes, i, tag) && i < j <= |runes|
    requires forall k :: i < k < j ==> IsTagRune(runes[k])
    ensures i + |tag| > j && j < |runes| && (runes[j] == '$' || IsTagRune(runes[j]))
  {
    assert forall k :: 0 <= k < |tag| ==> tag[k] == runes[i..][k] == runes[i + k];
    var last := i + |tag| - 1;
    assert runes[last] == '$';
    if last < j { assert false; }
    if j < last { assert runes[j] == tag[j - i]; }
  }

  lemma TagUnique(runes: seq<char>, i: nat, t1: string, t2: string)
    requires TagAt(runes, i, t1) && TagAt(runes, i, t2)
    ensures t1 == t2
  {
    assert forall k :: 0 <= k < |t1| ==> t1[k] == runes[i..][k];
    assert forall k :: 0 <= k < |t2| ==> t2[k] == runes[i..][k];
    assert t1 == runes[i..][..|t1|];
    assert t2 == runes[i..][..|t2|];
  }

  /** The test `dollarTag` is put to inside a body: does `tag` itself start here? */
  method ClosesHere(runes: seq<char>, i: nat, tag: string) returns (closes: bool)
    requires i < |runes| && IsTag(tag)
    ensures closes <==> tag <= runes[i..]
  {
    if runes[i] == '$' {
      var t2, ok2 := DollarTag(runes, i);
      if tag <= runes[i..] {
        assert TagAt(runes, i, tag);
        TagUnique(runes, i, tag, t2);
      }
      return ok2 && t2 == tag;
    }
    assert runes[i..][0] != tag[0];
    return false;
  }

  /** The automaton together with what the splitter has emitted and holds in its builder. */
  datatype Config = Config(mode: Mode, current: string, out: seq<string>)

  ghost function Feed(c: Config, r: char): Config {
    if Boundary(c.mode, r) then Config(Step(c.mode, r), "", if IsBlank(c.current) then c.out else c.out + [c.current])
    else Config(Step(c.mode, r), c.current + [r], c.out)
  }

  /** `trace[i]` is the configuration after the first `i` runes. */
  ghost predicate IsTrace(runes: seq<char>, trace: seq<Config>) {
    && |trace| == |runes| + 1
    && trace[0] == Config(Start, "", [])
    && forall i {:trigger Feed(trace[i], runes[i])} :: 0 <= i < |runes| ==> trace[i + 1] == Feed(trace[i], runes[i])
  }

  lemma {:induction false} TraceExists(runes: seq<char>) returns (trace: seq<Config>)
    ensures IsTrace(runes, trace)
    decreases |runes|
  {
    if runes == [] {
      trace := [Config(Start, "", [])];
    } else {
      var n := |runes| - 1;
      var before := TraceExists(runes[..n]);
      trace := before + [Feed(before[n], runes[n])];
      forall i | 0 <= i < |runes| ensures trace[i + 1] == Feed(trace[i], runes[i]) {
        if i < n { assert before[i + 1] == Feed(before[i], runes[..n][i]); }
      }
    }
  }

  ghost predicate Progress(trace: seq<Config>, out: seq<string>, current: string, m: Mode, i: nat) {
    i < |trace| && trace[i] == Config(m, current, out)
  }

  /** At every index, what is emitted, held in the builder and still to be read make up the answer. */
  lemma {:induction false} TraceIsSplit(runes: seq<char>, trace: seq<Config>, i: nat)
    requires i <= |runes| && IsTrace(runes, trace)
    ensures Answer(trace[i], Segments(trace[i].mode, runes[i..])) == Split(runes)
  {
    if i == 0 {
      assert runes[0..] == runes;
      assert "" + Segments(Start, runes)[0] == Segments(Start, runes)[0];
      assert Prepend("", Segments(Start, runes)) == Segments(Start, runes);
    } else {
      TraceIsSplit(runes, trace, i - 1);
      assert trace[i - 1 + 1] == Feed(trace[i - 1], runes[i - 1]);
      assert runes[i - 1..][1..] == runes[i..];
      FeedIsSplit(trace[i - 1], runes[i - 1..]);
    }
  }

  /** The answer when `segs` are the segments from `c` on. */
  ghost function Answer(c: Config, segs: seq<string>): seq<string>
    requires |segs| >= 1
  {
    c.out + NonBlank(Prepend(c.current, segs))
  }

  lemma LastFlush(runes: seq<char>, trace: seq<Config>, out: seq<string>, current: string, m: Mode)
    requires IsTrace(runes, trace) && Progress(trace, out, current, m, |runes|)
    ensures Split(runes) == if IsBlank(current) then out else out + [current]
  {
    TraceIsSplit(runes, trace, |runes|);
    assert current + "" == current;
    assert Prepend(current, [""]) == [current];
    assert NonBlank([current]) == if IsBlank(current) then [] else [current];
  }

  lemma FeedIsSplit(c: Config, s: string)
    requires s != []
    ensures Answer(c, Segments(c.mode, s)) == Answer(Feed(c, s[0]), Segments(Step(c.mode, s[0]), s[1..]))
  {
    SegmentsStep(c.mode, s, Step(c.mode, s[0]));
    FeedAnswers(c, s[0], Segments(Step(c.mode, s[0]), s[1..]));
  }

  lemma FeedAnswers(c: Config, r: char, rest: seq<string>)
    requires |rest| >= 1
    ensures Answer(c, if Boundary(c.mode, r) then [""] + rest else Prepend([r], rest)) == Answer(Feed(c, r), rest)
  {
    if Boundary(c.mode, r) {
      FeedCut(c, rest);
    } else {
      FeedCopy(c.current, r, rest);
    }
  }

  lemma FeedCut(c: Config, rest: seq<string>)
    requires |rest| >= 1
    ensures Answer(c, [""] + rest)
           == Answer(Config(c.mode, "", if IsBlank(c.current) then c.out else c.out + [c.current]), rest)
  {
    assert c.current + "" == c.current && "" + rest[0] == rest[0];
    assert Prepend(c.current, [""] + rest) == [c.current] + rest;
    assert ([c.current] + rest)[1..] == rest;
    assert Prepend("", rest) == rest;
  }

  lemma FeedCopy(current: string, r: char, rest: seq<string>)
    requires |rest| >= 1
    ensures Prepend(current, Prepend([r], rest)) == Prepend(current + [r], rest)
  {
    assert current + ([r] + rest[0]) == current + [r] + rest[0];
  }

  lemma Consume(runes: seq<char>, trace: seq<Config>, out: seq<string>, current: string, m: Mode, i: nat)
    requires IsTrace(runes, trace) && Progress(trace, out, current, m, i)
    requires i < |runes| && !Boundary(m, runes[i])
    ensures Progress(trace, out, current + [runes[i]], Step(m, runes[i]), i + 1)
  {
    assert trace[i + 1] == Feed(trace[i], runes[i]);
  }

  lemma ConsumeRun(runes: seq<char>, trace: seq<Config>, out: seq<string>, current: string, m: Mode, i: nat,
      text: string)
    requires IsTrace(runes, trace) && Progress(trace, out, current, m, i)
    requires text <= runes[i..] && NoBoundary(m, text)
    ensures Progress(trace, out, current + text, Run(m, text), i + |text|)
    decreases |text|
  {
    if text == [] {
      assert current + text == current;
    } else {
      assert text[0] == runes[i..][0] == runes[i];
      Consume(runes, trace, out, current, m, i);
      assert runes[i + 1..] == runes[i..][1..];
      ConsumeRun(runes, trace, out, current + [runes[i]], Step(m, runes[i]), i + 1, text[1..]);
      assert current + [runes[i]] + text[1..] == current + text;
    }
  }

  /** What the modes remember, at the head of the outer loop, of runes the loop body looks up itself. */
  ghost predicate AtHead(runes: seq<char>, i: nat, m: Mode)
    requires i <= |runes|
  {
    && InNormal(m)
    && (m.Start? <==> i == 0)
    && (m.Star? <==> i >= 2 && runes[i - 1] == '*')
    && (m.Dash? && i < |runes| ==> runes[i] != '-')
    && (m.Slash? && i < |runes| ==> runes[i] != '*')
    && (m.Tag? ==> |m.open| >= 1 && m.open[0] == '$' && (forall k :: 0 < k < |m.open| ==> IsTagRune(m.open[k]))
                   && forall t :: IsTag(t) && m.open <= t ==> !(t[|m.open|..] <= runes[i..]))
  }

  /** No opener starts at `i`: the automaton and the loop body agree that the rune is ordinary. */
  lemma HeadIsOrdinary(runes: seq<char>, i: nat, m: Mode)
    requires i < |runes| && AtHead(runes, i, m)
    ensures Step(m, runes[i])
         == if m.Tag? && IsTagRune(runes[i]) then Tag(m.open + [runes[i]]) else Ordinary(m, runes[i])
  {
    if m.Tag? && runes[i] == '$' {
      ghost var t := m.open + "$";
      assert !IsTag(t) || t[|m.open|..] == "$";
    }
  }

  lemma HeadAfterOrdinary(runes: seq<char>, i: nat, m: Mode)
    requires i < |runes| && AtHead(runes, i, m)
    requires runes[i] != '\'' && runes[i] != '"' && runes[i] != ';'
    requires runes[i] == '-' && i + 1 < |runes| ==> runes[i + 1] != '-'
    requires runes[i] == '/' && i + 1 < |runes| ==> runes[i + 1] != '*'
    requires runes[i] == '$' ==> forall t :: !TagAt(runes, i, t)
    ensures AtHead(runes, i + 1, Step(m, runes[i]))
  {
    HeadIsOrdinary(runes, i, m);
    var c := runes[i];
    var next := Step(m, c);
    if m.Tag? && IsTagRune(c) {
      forall t | IsTag(t) && next.open <= t ensures !(t[|next.open|..] <= runes[i + 1..]) {
        assert next.open[|m.open|] == c == t[|m.open|];
        assert t[|m.open|..] == [c] + t[|next.open|..];
        assert runes[i..] == [c] + runes[i + 1..];
      }
    } else if c == '$' {
      forall t | IsTag(t) && next.open <= t ensures !(t[1..] <= runes[i + 1..]) {
        if t[1..] <= runes[i + 1..] {
          assert t == ['$'] + t[1..];
          assert runes[i..] == [c] + runes[i + 1..];
          assert TagAt(runes, i, t);
        }
      }
    }
  }

  /** From ordinary text, a delimiter that no earlier `$` completes opens its own body. */
  lemma OpensDollar(m: Mode, tag: string, k: nat)
    requires IsTag(tag) && 1 <= k < |tag|
    requires m == Tag(tag[..k])
    ensures Run(m, tag[k..]) == Dollar(tag, 0) && NoBoundary(m, tag[k..])
    decreases |tag| - k
  {
    var c := tag[k..][0];
    assert c == tag[k];
    assert tag[k..][1..] == tag[k + 1..];
    if k == |tag| - 1 {
      assert tag[..k] + "$" == tag;
      assert tag[k + 1..] == [];
      assert Step(m, c) == Dollar(tag, 0);
    } else {
      assert tag[..k] + [c] == tag[..k + 1];
      OpensDollar(Tag(tag[..k + 1]), tag, k + 1);
    }
  }

  lemma ClosesDollar(tag: string, k: nat)
    requires IsTag(tag) && 1 <= k < |tag|
    ensures Run(Dollar(tag, k), tag[k..]) == Plain && NoBoundary(Dollar(tag, k), tag[k..])
    decreases |tag| - k
  {
    assert tag[k..][0] == tag[k];
    assert tag[k..][1..] == tag[k + 1..];
    if k == |tag| - 1 {
      assert tag[k + 1..] == [];
    } else {
      ClosesDollar(tag, k + 1);
    }
  }

  /** In a body, what is read of the closing tag will not be completed. */
  ghost predicate InBody(runes: seq<char>, i: nat, m: Mode, tag: string)
    requires i <= |runes|
  {
    && IsTag(tag) && m.Dollar? && m.tag == tag && m.seen < |tag|
    && (m.seen > 0 ==> !(tag[m.seen..] <= runes[i..]))
  }

  lemma BodyStep(runes: seq<char>, i: nat, m: Mode, tag: string)
    requires i < |runes| && InBody(runes, i, m, tag)
    requires !(tag <= runes[i..])
    ensures InBody(runes, i + 1, Step(m, runes[i]), tag)
  {
    var c := runes[i];
    assert runes[i..] == [c] + runes[i + 1..];
    assert tag[m.seen..] == [tag[m.seen]] + tag[m.seen + 1..];
    assert tag[0..] == tag == [tag[0]] + tag[1..];
  }

  /** At a complete closing tag the automaton reads just that tag and is back in ordinary text. */
  lemma BodyEnds(runes: seq<char>, i: nat, m: Mode, tag: string)
    requires i < |runes| && InBody(runes, i, m, tag) && tag <= runes[i..]
    ensures Run(m, tag) == Plain && NoBoundary(m, tag)
  {
    assert runes[i..][0] == tag[0] == '$';
    assert m.seen > 0 ==> tag[m.seen..] == [tag[m.seen]] + tag[m.seen + 1..];
    assert Step(m, '$') == Dollar(tag, 1);
    ClosesDollar(tag, 1);
  }

  /** From ordinary text the automaton reads an opening delimiter and is in its body. */
  lemma OpensBody(runes: seq<char>, i: nat, m: Mode, tag: string)
    requires i < |runes| && AtHead(runes, i, m) && TagAt(runes, i, tag)
    ensures Run(m, tag) == Dollar(tag, 0) && NoBoundary(m, tag)
    ensures runes[i] == '$'
  {
    assert runes[i] == runes[i..][0] == tag[0];
    HeadIsOrdinary(runes, i, m);
    assert tag[..1] == "$";
    OpensDollar(Tag("$"), tag, 1);
  }

  lemma CloseBody(runes: seq<char>, trace: seq<Config>, out: seq<string>, current: string, m: Mode, i: nat, tag: string)
    requires i < |runes| && InBody(runes, i, m, tag) && tag <= runes[i..]
    requires IsTrace(runes, trace) && Progress(trace, out, current, m, i)
    ensures i + |tag| <= |runes| && AtHead(runes, i + |tag|, Plain)
    ensures Progress(trace, out, current + tag, Plain, i + |tag|)
  {
    BodyEnds(runes, i, m, tag);
    ConsumeRun(runes, trace, out, current, m, i, tag);
    assert runes[i + |tag| - 1] == runes[i..][|tag| - 1] == tag[|tag| - 1];
  }

  lemma StepBody(runes: seq<char>, trace: seq<Config>, out: seq<string>, current: string, m: Mode, i: nat,
      tag: string) returns (next: Mode)
    requires i < |runes| && InBody(runes, i, m, tag)
    requires !(tag <= runes[i..])
    requires IsTrace(runes, trace) && Progress(trace, out, current, m, i)
    ensures InBody(runes, i + 1, next, tag)
    ensures Progress(trace, out, current + [runes[i]], next, i + 1)
  {
    BodyStep(runes, i, m, tag);
    Consume(runes, trace, out, current, m, i);
    next := Step(m, runes[i]);
  }

  lemma StartBody(runes: seq<char>, trace: seq<Config>, out: seq<string>, current: string, m: Mode, i: nat, tag: string)
    requires i < |runes| && AtHead(runes, i, m) && TagAt(runes, i, tag)
    requires IsTrace(runes, trace) && Progress(trace, out, current, m, i)
    ensures i + |tag| <= |runes|
    ensures InBody(runes, i + |tag|, Dollar(tag, 0), tag)
    ensures Progress(trace, out, current + tag, Dollar(tag, 0), i + |tag|)
  {
    OpensBody(runes, i, m, tag);
    ConsumeRun(runes, trace, out, current, m, i, tag);
  }

  /** A line comment, its newline included; a `;` in it is no boundary. */
  method CopyLineComment(runes: seq<char>, i0: nat, text: string, ghost trace: seq<Config>, ghost out: seq<string>,
      ghost m0: Mode)
    returns (i: nat, current: string, ghost m: Mode)
    requires i0 + 1 < |runes| && runes[i0] == runes[i0 + 1] == '-'
    requires AtHead(runes, i0, m0) && IsTrace(runes, trace) && Progress(trace, out, text, m0, i0)
    ensures i0 < i && Progress(trace, out, current, m, i)
    ensures i < |runes| ==> AtHead(runes, i, m)
  {
    HeadIsOrdinary(runes, i0, m0);
    i, current, m := i0, text, m0;
    while i < |runes| && runes[i] != '\n'
      invariant i0 <= i && Progress(trace, out, current, m, i)
      invariant m == if i == i0 then m0 else if i == i0 + 1 then Dash else Line
    {
      Consume(runes, trace, out, current, m, i);
      m := Step(m, runes[i]);
      current := current + [runes[i]];
      i := i + 1;
    }
    if i < |runes| {
      Consume(runes, trace, out, current, m, i);
      m := Step(m, runes[i]);
      current := current + [runes[i]];
      i := i + 1;
    }
  }

  /** A block comment, up to the first `/` whose previous rune is a `*`, wherever that `*` stands. */
  method CopyBlockComment(runes: seq<char>, i0: nat, text: string, ghost trace: seq<Config>, ghost out: seq<string>,
      ghost m0: Mode)
    returns (i: nat, current: string, ghost m: Mode)
    requires i0 + 1 < |runes| && runes[i0] == '/' && runes[i0 + 1] == '*'
    requires AtHead(runes, i0, m0) && IsTrace(runes, trace) && Progress(trace, out, text, m0, i0)
    ensures i0 < i && Progress(trace, out, current, m, i)
    ensures i < |runes| ==> AtHead(runes, i, m)
  {
    HeadIsOrdinary(runes, i0, m0);
    i, current, m := i0, text, m0;
    while i < |runes|
      invariant i0 <= i && Progress(trace, out, current, m, i)
      invariant m == if i == i0 then m0 else if i == i0 + 1 then Slash
                     else if runes[i - 1] == '*' then BlockStar else Block
    {
      Consume(runes, trace, out, current, m, i);
      m := Step(m, runes[i]);
      current := current + [runes[i]];
      if runes[i] == '/' && i > 0 && runes[i - 1] == '*' && i > 1 {
        break;
      }
      i := i + 1;
    }
    if i < |runes| {
      i := i + 1;
    }
  }

  /** A dollar-quoted body with its delimiters: it ends at the next copy of its own tag. */
  method CopyDollarBody(runes: seq<char>, i0: nat, text: string, tag: string, ghost trace: seq<Config>,
      ghost out: seq<string>, ghost m0: Mode)
    returns (i: nat, current: string, ghost m: Mode)
    requires i0 < |runes| && TagAt(runes, i0, tag)
    requires AtHead(runes, i0, m0) && IsTrace(runes, trace) && Progress(trace, out, text, m0, i0)
    ensures i0 < i && Progress(trace, out, current, m, i)
    ensures i < |runes| ==> AtHead(runes, i, m)
  {
    StartBody(runes, trace, out, text, m0, i0, tag);
    m := Dollar(tag, 0);
    current := text + tag;
    i := i0 + |tag|;
    while i < |runes|
      invariant i0 < i && Progress(trace, out, current, m, i)
      invariant InBody(runes, i, m, tag)
    {
      var closes := ClosesHere(runes, i, tag);
      if closes {
        CloseBody(runes, trace, out, current, m, i, tag);
        return i + |tag|, current + tag, Plain;
      }
      m := StepBody(runes, trace, out, current, m, i, tag);
      current := current + [runes[i]];
      i := i + 1;
    }
  }

  /** A quoted string or identifier; a doubled quote stays inside. */
  method CopyQuoted(runes: seq<char>, i0: nat, text: string, ghost trace: seq<Config>, ghost out: seq<string>,
      ghost m0: Mode)
    returns (i: nat, current: string, ghost m: Mode)
    requires i0 < |runes| && (runes[i0] == '\'' || runes[i0] == '"')
    requires AtHead(runes, i0, m0) && IsTrace(runes, trace) && Progress(trace, out, text, m0, i0)
    ensures i0 < i && Progress(trace, out, current, m, i)
    ensures i < |runes| ==> AtHead(runes, i, m)
  {
    HeadIsOrdinary(runes, i0, m0);
    var quote := runes[i0];
    Consume(runes, trace, out, text, m0, i0);
    i, current, m := i0 + 1, text + [quote], Quote(quote);
    while i < |runes|
      invariant i0 < i && Progress(trace, out, current, m, i)
      invariant m == Quote(quote)
    {
      Consume(runes, trace, out, current, m, i);
      m := Step(m, runes[i]);
      current := current + [runes[i]];
      if runes[i] == quote {
        if i + 1 < |runes| && runes[i + 1] == quote {
          i := i + 1;
          Consume(runes, trace, out, current, m, i);
          m := Step(m, runes[i]);
          current := current + [runes[i]];
        } else {
          break;
        }
      }
      i := i + 1;
    }
    if i < |runes| {
      i := i + 1;
    }
  }

  method SplitStatements(runes: seq<char>) returns (statements: seq<string>)
    ensures statements == Split(runes)
  {
    statements := [];
    var current := "";
    var i := 0;
    ghost var m := Start;
    ghost var trace := TraceExists(runes);
    while i < |runes|
      invariant Progress(trace, statements, current, m, i)
      invariant i < |runes| ==> AtHead(runes, i, m)
    {
      var r := runes[i];
      if r == '-' && i + 1 < |runes| && runes[i + 1] == '-' {
        i, current, m := CopyLineComment(runes, i, current, trace, statements, m);
        continue;
      }
      if r == '/' && i + 1 < |runes| && runes[i + 1] == '*' {
        i, current, m := CopyBlockComment(runes, i, current, trace, statements, m);
        continue;
      }
      if r == '$' {
        var tag, ok := DollarTag(runes, i);
        if ok {
          i, current, m := CopyDollarBody(runes, i, current, tag, trace, statements, m);
          continue;
        }
      }
      if r == '\'' || r == '"' {
        i, current, m := CopyQuoted(runes, i, current, trace, statements, m);
        continue;
      }
      if r == ';' {
        m := Step(m, r);
        assert trace[i + 1] == Feed(trace[i], runes[i]);
        if !IsBlank(current) {
          statements := statements + [current];
        }
        current := "";
        i := i + 1;
        continue;
      }
      HeadAfterOrdinary(runes, i, m);
      Consume(runes, trace, statements, current, m, i);
      m := Step(m, r);
      current := current + [r];
      i := i + 1;
    }
    LastFlush(runes, trace, statements, current, m);
    if !IsBlank(current) {
      statements := statements + [current];
    }
  }
}
