/**
 Where PostgreSQL may cut a script, and when the splitter cuts it there: identifiers and key words (section 4.1.1
 of its manual), string constants with and without escapes, dollar quotes (4.1.2), and comments (4.1.5), block
 comments nesting and line comments ending at either end-of-line rune.
 */
module SqlStandard {
  import opened SqlLexer
  import opened SplitProperties

  /** What the last rune of a block comment was. */
  datatype Last = Opened | Star | Slash | Other

  datatype Context =
    | Text
    | AfterDash
    | AfterSlash
    | InIdent(e: bool)                      // in an identifier; `e` if it is an E so far, which prefixes escape strings
    | AfterDollar(open: string)             // `open` may become the delimiter of a dollar quote
    | EscapeClosed                          // after the quote of an escape string, which another quote continues
    | InLine
    | AfterReturn                           // a carriage return ended a line comment, unless a newline follows it
    | InBlock(depth: nat, last: Last)       // `depth` comments are open around this one
    | InQuote(quote: char)
    | InEscape(backslash: bool)
    | InDollar(tag: string, seen: nat)

  predicate InText(c: Context) {
    c.Text? || c.AfterDash? || c.AfterSlash? || c.InIdent? || c.AfterDollar? || c.EscapeClosed?
  }

  predicate IsDigit(r: char) {
    '0' <= r <= '9'
  }

  predicate StartsIdent(r: char) {
    r == '_' || 'a' <= r <= 'z' || 'A' <= r <= 'Z' || r >= '\U{0080}'
  }

  /** An ASCII letter, a digit or an underscore. */
  predicate IsWordRune(r: char) {
    (StartsIdent(r) && r < '\U{0080}') || IsDigit(r)
  }

  predicate ContinuesIdent(r: char) {
    StartsIdent(r) || IsDigit(r) || r == '$'
  }

  predicate IsE(r: char) {
    r == 'e' || r == 'E'
  }

  function Opening(r: char): Context {
    if r == '-' then AfterDash
    else if r == '/' then AfterSlash
    else if r == '$' then AfterDollar("$")
    else if r == '\'' || r == '"' then InQuote(r)
    else if StartsIdent(r) then InIdent(IsE(r))
    else Text
  }

  function NextInBlock(depth: nat, last: Last, r: char): Context {
    if r == '*' then (if last.Slash? then InBlock(depth + 1, Opened) else InBlock(depth, Last.Star))
    else if r == '/' then
      if !last.Star? then InBlock(depth, Last.Slash) else if depth == 0 then Text else InBlock(depth - 1, Other)
    else InBlock(depth, Other)
  }

  function Next(c: Context, r: char): Context {
    match c
    case Text => Opening(r)
    case AfterDash => if r == '-' then InLine else Opening(r)
    case AfterSlash => if r == '*' then InBlock(0, Opened) else Opening(r)
    case InIdent(e) =>
      if ContinuesIdent(r) then InIdent(false) else if e && r == '\'' then InEscape(false) else Opening(r)
    case AfterDollar(open) =>
      if r == '$' then InDollar(open + "$", 0)
      else if StartsIdent(r) || (IsDigit(r) && |open| > 1) then AfterDollar(open + [r])
      else if r == '\'' && |open| == 2 && IsE(open[1]) then InEscape(false)
      else Opening(r)
    case EscapeClosed => if r == '\'' then InEscape(false) else Opening(r)
    case InLine => if r == '\n' then Text else if r == '\r' then AfterReturn else InLine
    case AfterReturn => if r == '\n' then Text else Opening(r)
    case InBlock(depth, last) => NextInBlock(depth, last, r)
    case InQuote(q) => if r == q then Text else c
    case InEscape(backslash) => if r == '\'' && !backslash then EscapeClosed else InEscape(r == '\\' && !backslash)
    case InDollar(tag, seen) =>
      if seen < |tag| && r == tag[seen] then (if seen + 1 == |tag| then Text else InDollar(tag, seen + 1))
      else InDollar(tag, if r == '$' then 1 else 0)
  }

  function ContextAt(s: string, i: nat): Context
    requires i <= |s|
  {
    if i == 0 then Text else Next(ContextAt(s, i - 1), s[i - 1])
  }

  /** What comes at `i` is read as ordinary text. */
  predicate TextAt(s: string, i: nat)
    requires i <= |s|
  {
    InText(ContextAt(s, i)) || (ContextAt(s, i).AfterReturn? && i < |s| && s[i] != '\n')
  }

  // ----- Where the splitter reads otherwise ----------------------------------------------------

  /** A comment opener after a `*`, unless that is the script's first rune. */
  predicate HiddenOpener(s: string, i: nat)
    requires i < |s|
  {
    ContextAt(s, i).AfterSlash? && s[i] == '*' && i >= 3 && s[i - 2] == '*'
  }

  /** A `/` that follows an opener at once, or that closes a nested comment only. */
  predicate EarlyClose(s: string, i: nat)
    requires i < |s|
  {
    var c := ContextAt(s, i);
    c.InBlock? && s[i] == '/' && (c.last.Opened? || (c.last.Star? && c.depth > 0))
  }

  /** A carriage return alone ends a line comment. */
  predicate LoneReturn(s: string, i: nat)
    requires i < |s|
  {
    ContextAt(s, i).AfterReturn? && s[i] != '\n'
  }

  /** An escaped quote. */
  predicate EscapedQuote(s: string, i: nat)
    requires i < |s|
  {
    ContextAt(s, i) == InEscape(true) && s[i] == '\''
  }

  /** Up to `i` stand a `$` of ordinary text and tag runes. */
  predicate TagPending(s: string, i: nat)
    requires i <= |s|
  {
    i > 0 && if s[i - 1] == '$' then InText(ContextAt(s, i - 1)) else IsWordRune(s[i - 1]) && TagPending(s, i - 1)
  }

  predicate PlainTag(open: string) {
    forall k :: 0 < k < |open| ==> IsWordRune(open[k])
  }

  /**
   A `$` after what looks like a tag but is part of an identifier or begins with a digit, or after a tag of other
   runes.
   */
  predicate OddTag(s: string, i: nat)
    requires i < |s|
  {
    var c := ContextAt(s, i);
    s[i] == '$' && if c.AfterDollar? then !PlainTag(c.open) else InText(c) && TagPending(s, i)
  }

  predicate Misread(s: string, i: nat)
    requires i < |s|
  {
    HiddenOpener(s, i) || EarlyClose(s, i) || LoneReturn(s, i) || EscapedQuote(s, i) || OddTag(s, i)
  }

  /** No rune before `n` is misread. */
  ghost predicate ReadRight(s: string, n: nat)
    requires n <= |s|
  {
    forall i :: 0 <= i < n ==> !Misread(s, i)
  }

  ghost predicate Agree(s: string, i: nat)
    requires i <= |s|
  {
    InNormal(Run(Start, s[..i])) == TextAt(s, i)
  }

  lemma {:induction false} RunExtends(m: Mode, s: string, c: char)
    ensures Run(m, s + [c]) == Step(Run(m, s), c)
    decreases |s|
  {
    if s == [] {
      assert (s + [c])[0] == c && (s + [c])[1..] == [];
    } else {
      assert (s + [c])[0] == s[0] && (s + [c])[1..] == s[1..] + [c];
      RunExtends(Step(m, s[0]), s[1..], c);
    }
  }

  /** The splitter's mode, while the two have read alike; `starred` if a `*` stood two runes back. */
  ghost predicate Match(m: Mode, c: Context, starred: bool) {
    match c
    case Text => m.Start? || m.Plain? || m.Star? || m.Tag?
    case AfterDash => m.Dash?
    case AfterSlash => if starred then m.Plain? else m.Slash?
    case InIdent(_) => m.Plain? || m.Tag?
    case AfterDollar(open) => open != "" && if PlainTag(open) then m == Tag(open) else m.Plain?
    case EscapeClosed => m.Plain?
    case InLine => m.Line?
    case AfterReturn => m.Line?
    case InBlock(_, last) => if last.Star? || last.Opened? then m.BlockStar? else m.Block?
    case InQuote(q) => m == Quote(q) && (q == '\'' || q == '"')
    case InEscape(_) => m == Quote('\'')
    case InDollar(tag, seen) => m == Dollar(tag, seen) && tag != "" && tag[|tag| - 1] == '$'
  }

  predicate StarredSlash(s: string, i: nat)
    requires i <= |s|
  {
    i >= 3 && s[i - 2] == '*'
  }

  ghost predicate Together(s: string, i: nat, m: Mode)
    requires i <= |s|
  {
    && Match(m, ContextAt(s, i), StarredSlash(s, i))
    && (m.Start? <==> i == 0)
    && (InNormal(m) ==> (m.Star? <==> i >= 2 && s[i - 1] == '*') && (m.Tag? <==> TagPending(s, i)))
    && (ContextAt(s, i).AfterSlash? ==> i >= 1 && s[i - 1] == '/')
  }

  lemma PlainTagMore(open: string, r: char)
    requires open != ""
    ensures PlainTag(open + [r]) <==> PlainTag(open) && IsWordRune(r)
  {
    var more := open + [r];
    assert more[|open|] == r;
    assert forall k :: 0 < k < |open| ==> more[k] == open[k];
  }

  lemma StepFromText(s: string, i: nat, m: Mode)
    requires i < |s| && Together(s, i, m) && !Misread(s, i)
    requires InText(ContextAt(s, i)) && !ContextAt(s, i).AfterDollar?
    ensures Together(s, i + 1, Step(m, s[i]))
  {
  }

  lemma StepFromDollar(s: string, i: nat, m: Mode)
    requires i < |s| && Together(s, i, m) && !Misread(s, i) && ContextAt(s, i).AfterDollar?
    ensures Together(s, i + 1, Step(m, s[i]))
  {
    PlainTagMore(ContextAt(s, i).open, s[i]);
    FromDollarMatch(ContextAt(s, i).open, m, s[i]);
  }

  lemma FromDollarMatch(open: string, m: Mode, r: char)
    requires Match(m, AfterDollar(open), false) && (r == '$' ==> PlainTag(open))
    ensures var c := Next(AfterDollar(open), r); Match(Step(m, r), c, false)
    ensures InNormal(Step(m, r)) ==> !Step(m, r).Start? && (Step(m, r).Star? <==> r == '*')
  {
    if open != "" { PlainTagMore(open, r); }
  }

  /** Outside ordinary text one rune keeps the two together, and each way back ends with a rune of its own. */
  lemma WithinStep(c: Context, m: Mode, r: char)
    requires !InText(c) && Match(m, c, false)
    requires !(c.InBlock? && r == '/' && (c.last.Opened? || (c.last.Star? && c.depth > 0)))
    requires !(c.AfterReturn? && r != '\n') && !(c == InEscape(true) && r == '\'')
    ensures Match(Step(m, r), Next(c, r), false) && !Next(c, r).AfterSlash?
    ensures InNormal(Step(m, r)) ==> Step(m, r).Plain? && (r == '$' || !IsWordRune(r)) && r != '*'
  {
  }

  lemma StepFromWithin(s: string, i: nat, m: Mode)
    requires i < |s| && Together(s, i, m) && !Misread(s, i) && !InText(ContextAt(s, i))
    ensures Together(s, i + 1, Step(m, s[i]))
  {
    WithinStep(ContextAt(s, i), m, s[i]);
  }

  lemma StepTogether(s: string, i: nat, m: Mode)
    requires i < |s| && Together(s, i, m) && !Misread(s, i)
    ensures Together(s, i + 1, Step(m, s[i]))
  {
    if ContextAt(s, i).AfterDollar? {
      StepFromDollar(s, i, m);
    } else if InText(ContextAt(s, i)) {
      StepFromText(s, i, m);
    } else {
      StepFromWithin(s, i, m);
    }
  }

  /** A misread rune parts them at once. */
  lemma MisreadParts(s: string, i: nat, m: Mode)
    requires i < |s| && Together(s, i, m) && Misread(s, i)
    ensures InNormal(m) != TextAt(s, i) || InNormal(Step(m, s[i])) != TextAt(s, i + 1)
  {
  }

  lemma {:induction false} TogetherUpTo(s: string, i: nat)
    requires i <= |s|
    requires ReadRight(s, i)
    ensures Together(s, i, Run(Start, s[..i]))
  {
    if i > 0 {
      TogetherUpTo(s, i - 1);
      RunExtends(Start, s[..i - 1], s[i - 1]);
      assert s[..i - 1] + [s[i - 1]] == s[..i];
      StepTogether(s, i - 1, Run(Start, s[..i - 1]));
    }
  }

  lemma {:induction false} FirstMisread(s: string, n: nat) returns (i: nat)
    requires n < |s| && Misread(s, n)
    ensures i <= n && Misread(s, i) && ReadRight(s, i)
  {
    i := n;
    if j :| 0 <= j < n && Misread(s, j) {
      i := FirstMisread(s, j);
    }
  }

  lemma AgreesUpTo(s: string, i: nat)
    requires i <= |s| && ReadRight(s, |s|)
    ensures Agree(s, i)
  {
    assert ReadRight(s, i);
    TogetherUpTo(s, i);
    assert i < |s| ==> !Misread(s, i);
  }

  /** The splitter knows ordinary text from the rest, everywhere, exactly when it misreads no rune. */
  lemma AgreementIsExact(s: string)
    ensures (forall i :: 0 <= i <= |s| ==> Agree(s, i)) <==> ReadRight(s, |s|)
  {
    if ReadRight(s, |s|) {
      forall i | 0 <= i <= |s| ensures Agree(s, i) {
        AgreesUpTo(s, i);
      }
    } else {
      var n :| 0 <= n < |s| && Misread(s, n);
      var i := FirstMisread(s, n);
      TogetherUpTo(s, i);
      MisreadParts(s, i, Run(Start, s[..i]));
      RunExtends(Start, s[..i], s[i]);
      assert s[..i] + [s[i]] == s[..i + 1];
      assert !Agree(s, i) || !Agree(s, i + 1);
    }
  }

  lemma CutIsBoundary(s: string, k: nat)
    ensures k in Cuts(Segments(Start, s), 0) <==> BoundaryAt(Start, s, k)
  {
    CutsAreBoundaries(Start, s, 0, k);
  }

  lemma BoundaryIsStandard(s: string, k: nat)
    requires k < |s| && ReadRight(s, |s|)
    ensures BoundaryAt(Start, s, k) <==> s[k] == ';' && TextAt(s, k)
  {
    AgreesUpTo(s, k);
  }

  /** On such a script the `;`s the splitter cuts at are those that stand in ordinary text. */
  lemma CutsAreStandard(s: string, k: nat)
    requires ReadRight(s, |s|)
    ensures k in Cuts(Segments(Start, s), 0) <==> k < |s| && s[k] == ';' && TextAt(s, k)
  {
    CutIsBoundary(s, k);
    if k < |s| { BoundaryIsStandard(s, k); }
  }

  // ----- Conditions on the text alone ----------------------------------------------------------

  predicate Pair(s: string, i: int, a: char, b: char) {
    0 <= i < |s| - 1 && s[i] == a && s[i + 1] == b
  }

  /** Neither a `*` before a comment opener nor a `/` after one, wherever such runes stand. */
  ghost predicate SpacedOpeners(s: string) {
    forall i :: Pair(s, i, '/', '*') ==> (i > 0 ==> s[i - 1] != '*') && (i + 2 < |s| ==> s[i + 2] != '/')
  }

  ghost predicate Closed(s: string, from: int, to: int) {
    exists k :: from <= k <= to - 2 && Pair(s, k, '*', '/')
  }

  /** Between an opener and a later one stands a closer. */
  ghost predicate NoNesting(s: string) {
    forall j, i :: Pair(s, j, '/', '*') && Pair(s, i, '/', '*') && j < i ==> Closed(s, j + 2, i)
  }

  ghost predicate NoLoneReturns(s: string) {
    forall i: nat :: i < |s| && s[i] == '\r' ==> Pair(s, i, '\r', '\n')
  }

  ghost predicate NoEscapedQuotes(s: string) {
    forall i :: !Pair(s, i, '\\', '\'')
  }

  /** Two `$`s with nothing or a word between them. */
  ghost predicate LooksLikeTag(s: string, j: nat, i: nat) {
    j < i < |s| && s[j] == '$' && s[i] == '$' && forall k :: j < k < i ==> s[k] != '$' && ContinuesIdent(s[k])
  }

  /** What looks like a tag is one: it does not continue a word, begin with a digit or hold other runes. */
  ghost predicate PlainDollars(s: string) {
    forall j: nat, i: nat :: LooksLikeTag(s, j, i) ==>
      && (j > 0 ==> !ContinuesIdent(s[j - 1])) && !IsDigit(s[j + 1])
      && forall k :: j < k < i ==> IsWordRune(s[k])
  }

  /** Inside a comment, `j` is where it opened. */
  ghost predicate OpenSince(s: string, i: nat, j: nat)
    requires i <= |s|
  {
    var c := ContextAt(s, i);
    && c.InBlock? && c.depth == 0 && Pair(s, j, '/', '*') && j + 2 <= i && !Closed(s, j + 2, i)
    && (c.last.Opened? <==> j + 2 == i)
    && (c.last.Star? <==> j + 2 < i && s[i - 1] == '*') && (c.last.Slash? <==> j + 2 < i && s[i - 1] == '/')
  }

  lemma AfterSlashMeans(s: string, i: nat)
    requires i <= |s| && ContextAt(s, i).AfterSlash?
    ensures i >= 1 && s[i - 1] == '/'
  {
  }

  /** Inside a comment opened at `j` one more rune opens no other. */
  lemma StaysUnnested(s: string, i: nat, j: nat)
    requires i < |s| && NoNesting(s) && OpenSince(s, i, j) && ContextAt(s, i + 1).InBlock?
    ensures OpenSince(s, i + 1, j)
  {
    assert Closed(s, j + 2, i + 1) ==> Closed(s, j + 2, i) || (i > j + 2 && Pair(s, i - 1, '*', '/'));
    assert i > j + 2 && Pair(s, i - 1, '/', '*') ==> Closed(s, j + 2, i - 1);
    assert Closed(s, j + 2, i - 1) ==> Closed(s, j + 2, i);
  }

  lemma {:induction false} NestsNever(s: string, i: nat) returns (j: nat)
    requires i <= |s| && ContextAt(s, i).InBlock? && NoNesting(s)
    ensures OpenSince(s, i, j)
    decreases i
  {
    if ContextAt(s, i - 1).AfterSlash? {
      AfterSlashMeans(s, i - 1);
      j := i - 2;
    } else {
      j := NestsNever(s, i - 1);
      StaysUnnested(s, i - 1, j);
    }
  }

  lemma {:induction false} DollarIsWord(s: string, i: nat)
    requires i <= |s| && ContextAt(s, i).AfterDollar?
    ensures var open := ContextAt(s, i).open;
            open != "" && open[0] == '$' && forall k :: 0 < k < |open| ==> open[k] != '$' && ContinuesIdent(open[k])
    decreases i
  {
    if ContextAt(s, i - 1).AfterDollar? { DollarIsWord(s, i - 1); }
  }

  lemma {:induction false} DollarMeans(s: string, i: nat)
    requires i <= |s| && ContextAt(s, i).AfterDollar?
    ensures var open := ContextAt(s, i).open; |open| <= i && s[i - |open|..i] == open
    decreases i
  {
    if ContextAt(s, i - 1).AfterDollar? && ContextAt(s, i) != AfterDollar("$") {
      DollarMeans(s, i - 1);
      var open := ContextAt(s, i - 1).open;
      DollarGrows(s, i - 1, open);
      SliceGrows(s, i - 1 - |open|, i - 1);
    }
  }

  lemma DollarGrows(s: string, i: nat, open: string)
    requires i < |s| && ContextAt(s, i) == AfterDollar(open)
    ensures ContextAt(s, i + 1).AfterDollar? ==>
           ContextAt(s, i + 1) == AfterDollar("$") || ContextAt(s, i + 1) == AfterDollar(open + [s[i]])
  {
  }

  lemma SliceGrows(s: string, a: nat, i: nat)
    requires a <= i < |s|
    ensures s[a..i + 1] == s[a..i] + [s[i]]
  {
  }

  lemma IdentMeans(s: string, i: nat)
    requires i <= |s| && (ContextAt(s, i).InIdent? || ContextAt(s, i).AfterDollar?)
    ensures i > 0 && ContinuesIdent(s[i - 1])
  {
    if ContextAt(s, i).AfterDollar? {
      DollarIsWord(s, i);
      DollarMeans(s, i);
    }
  }

  /** Strictly between the two stand runes of a tag. */
  ghost predicate TagRunes(s: string, j: nat, i: nat) {
    forall k :: j < k < i && k < |s| ==> s[k] != '$' && IsWordRune(s[k])
  }

  lemma {:induction false} PendingSince(s: string, i: nat) returns (j: nat)
    requires i <= |s| && TagPending(s, i)
    ensures j < i && s[j] == '$' && InText(ContextAt(s, j)) && TagRunes(s, j, i)
    decreases i
  {
    j := i - 1;
    if s[j] != '$' {
      j := PendingSince(s, i - 1);
    }
  }

  lemma TagGrows(s: string, i: nat, open: string)
    requires i < |s| && ContextAt(s, i) == AfterDollar(open) && s[i] != '$' && IsWordRune(s[i])
            && (|open| <= 1 ==> !IsDigit(s[i]))
    ensures ContextAt(s, i + 1) == AfterDollar(open + [s[i]])
  {
  }

  lemma TagBegins(s: string, j: nat)
    requires j < |s| && s[j] == '$' && InText(ContextAt(s, j)) && (j > 0 ==> !ContinuesIdent(s[j - 1]))
    ensures ContextAt(s, j + 1) == AfterDollar("$")
  {
    if ContextAt(s, j).InIdent? || ContextAt(s, j).AfterDollar? { IdentMeans(s, j); }
  }

  lemma TagStep(s: string, j: nat, i: nat)
    requires j < i < |s| && ContextAt(s, i) == AfterDollar(s[j..i])
    requires s[i] != '$' && IsWordRune(s[i]) && (i == j + 1 ==> !IsDigit(s[i]))
    ensures ContextAt(s, i + 1) == AfterDollar(s[j..i + 1])
  {
    TagGrows(s, i, s[j..i]);
    SliceGrows(s, j, i);
  }

  /** Where a plain tag begins in ordinary text, so does a delimiter. */
  lemma {:induction false} TagOpens(s: string, j: nat, i: nat)
    requires j < i <= |s| && s[j] == '$' && InText(ContextAt(s, j)) && (j > 0 ==> !ContinuesIdent(s[j - 1]))
    requires TagRunes(s, j, i)
    requires j + 1 < i ==> !IsDigit(s[j + 1])
    ensures ContextAt(s, i) == AfterDollar(s[j..i])
    decreases i
  {
    if i == j + 1 {
      TagBegins(s, j);
      assert s[j..i] == "$";
    } else {
      assert TagRunes(s, j, i - 1);
      TagOpens(s, j, i - 1);
      TagStep(s, j, i - 1);
    }
  }

  lemma NoOddTag(s: string, i: nat)
    requires i < |s| && PlainDollars(s)
    ensures !OddTag(s, i)
  {
    var c := ContextAt(s, i);
    if s[i] == '$' && c.AfterDollar? {
      DollarIsWord(s, i);
      DollarMeans(s, i);
      var j := i - |c.open|;
      assert forall k :: j < k < i ==> s[k] == c.open[k - j];
      assert LooksLikeTag(s, j, i);
      assert forall k :: 0 < k < |c.open| ==> c.open[k] == s[j + k];
    } else if s[i] == '$' && TagPending(s, i) {
      var j := PendingSince(s, i);
      assert LooksLikeTag(s, j, i);
      TagOpens(s, j, i);
    }
  }

  ghost predicate PlainScript(s: string) {
    SpacedOpeners(s) && NoNesting(s) && NoLoneReturns(s) && NoEscapedQuotes(s) && PlainDollars(s)
  }

  lemma {:induction false} ReturnMeans(s: string, i: nat)
    requires i <= |s|
    ensures ContextAt(s, i).AfterReturn? ==> i > 0 && s[i - 1] == '\r'
    ensures ContextAt(s, i) == InEscape(true) ==> i > 0 && s[i - 1] == '\\'
  {
  }

  lemma PlainIsNotMisread(s: string, i: nat)
    requires PlainScript(s) && i < |s|
    ensures !Misread(s, i)
  {
    NoOddTag(s, i);
    ReturnMeans(s, i);
    var c := ContextAt(s, i);
    if c.AfterReturn? { assert Pair(s, i - 1, '\r', '\n'); }
    if c == InEscape(true) { assert !Pair(s, i - 1, '\\', '\''); }
    if c.AfterSlash? && s[i] == '*' {
      AfterSlashMeans(s, i);
      assert Pair(s, i - 1, '/', '*');
    }
    if c.InBlock? && s[i] == '/' {
      var j := NestsNever(s, i);
      assert Pair(s, j, '/', '*');
    }
  }

  /** In particular on every script that is plain in this sense. */
  lemma PlainScriptsAreStandard(s: string, k: nat)
    requires PlainScript(s)
    ensures k in Cuts(Segments(Start, s), 0) <==> k < |s| && s[k] == ';' && TextAt(s, k)
  {
    forall i | 0 <= i < |s| ensures !Misread(s, i) {
      PlainIsNotMisread(s, i);
    }
    CutsAreStandard(s, k);
  }
}
