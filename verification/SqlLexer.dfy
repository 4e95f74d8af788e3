/**
 The lexical rule that decides where a migration script may be cut, as an automaton that reads
 one rune at a time, never looks ahead and never looks back.

 `Step` follows the splitter of the identity module to the letter, including two places where it
 departs from SQL: a comment opener written right after a `*` closes itself, and `/` + `*` + `/`
 counts as a whole comment. `SqlStandard` states the rule without them.
 */
module SqlLexer {

  datatype Mode =
    | Start                               // nothing read yet
    | Plain                               // ordinary text
    | Star                                // ordinary text, the last rune was a `*` (not the first of the script)
    | Dash                                // ordinary text, the last rune was a `-`
    | Slash                               // ordinary text, the last rune was a `/` that may open a comment
    | Tag(open: string)                   // ordinary text, `open` is a `$` and the tag runes after it
    | Line                                // in a line comment
    | Block                               // in a block comment
    | BlockStar                           // in a block comment, the last rune was a `*`
    | Quote(quote: char)                  // in a quoted string or identifier
    | Dollar(tag: string, seen: nat)      // in a dollar-quoted body, `seen` runes of its closing tag are read

  predicate InNormal(m: Mode) {
    m.Start? || m.Plain? || m.Star? || m.Dash? || m.Slash? || m.Tag?
  }

  predicate IsTagRune(c: char) {
    c == '_' || 'a' <= c <= 'z' || 'A' <= c <= 'Z' || '0' <= c <= '9'
  }

  /** A rune of ordinary text that completes no opener. */
  function Ordinary(m: Mode, c: char): Mode {
    if c == '-' then Dash
    else if c == '/' then (if m.Star? then Plain else Slash)
    else if c == '$' then Tag("$")
    else if c == '\'' || c == '"' then Quote(c)
    else if c == '*' && !m.Start? then Star
    else Plain
  }

  function Step(m: Mode, c: char): Mode {
    match m
    case Line => if c == '\n' then Plain else Line
    case Block => if c == '*' then BlockStar else Block
    case BlockStar => if c == '/' then Plain else if c == '*' then BlockStar else Block
    case Quote(q) => if c == q then Plain else m
    case Dollar(tag, seen) =>
      if seen < |tag| && c == tag[seen] then (if seen + 1 == |tag| then Plain else Dollar(tag, seen + 1))
      else Dollar(tag, if c == '$' then 1 else 0)
    case Dash => if c == '-' then Line else Ordinary(m, c)
    case Slash => if c == '*' then BlockStar else Ordinary(m, c)
    case Tag(open) =>
      if c == '$' then Dollar(open + "$", 0)
      else if IsTagRune(c) then Tag(open + [c])
      else Ordinary(m, c)
    case _ => Ordinary(m, c)
  }

  /** The mode after reading all of `s`, from `m`. */
  function Run(m: Mode, s: string): Mode
    decreases |s|
  {
    if s == [] then m else Run(Step(m, s[0]), s[1..])
  }

  /** A `;` cuts the script exactly in ordinary text. */
  predicate Boundary(m: Mode, c: char) {
    c == ';' && InNormal(m)
  }

  predicate NoBoundary(m: Mode, s: string)
    decreases |s|
  {
    s == [] || (!Boundary(m, s[0]) && NoBoundary(Step(m, s[0]), s[1..]))
  }

  /** The segments between the boundaries of `s`. */
  function Segments(m: Mode, s: string): (segs: seq<string>)
    ensures |segs| >= 1
    decreases |s|
  {
    if s == [] then [""]
    else
      var rest := Segments(Step(m, s[0]), s[1..]);
      if Boundary(m, s[0]) then [""] + rest
      else Prepend([s[0]], rest)
  }

  function Prepend(text: string, segs: seq<string>): (r: seq<string>)
    requires |segs| >= 1
    ensures |r| == |segs|
  {
    [text + segs[0]] + segs[1..]
  }

  lemma SegmentsStep(m: Mode, s: string, next: Mode)
    requires s != [] && next == Step(m, s[0])
    ensures Segments(m, s)
         == var rest := Segments(next, s[1..]);
            if Boundary(m, s[0]) then [""] + rest else Prepend([s[0]], rest)
  {
  }

  /** White space as the Go library's unicode.IsSpace has it. */
  predicate IsSpace(c: char) {
    || '\t' <= c <= '\r' || c == ' ' || c == '\U{0085}' || c == '\U{00A0}' || c == '\U{1680}'
    || '\U{2000}' <= c <= '\U{200A}' || c == '\U{2028}' || c == '\U{2029}' || c == '\U{202F}'
    || c == '\U{205F}' || c == '\U{3000}'
  }

  function TrimLeft(s: string): string {
    if s != [] && IsSpace(s[0]) then TrimLeft(s[1..]) else s
  }

  function TrimRight(s: string): string {
    if s != [] && IsSpace(s[|s| - 1]) then TrimRight(s[..|s| - 1]) else s
  }

  function TrimSpace(s: string): string {
    TrimRight(TrimLeft(s))
  }

  predicate IsBlank(s: string) {
    TrimSpace(s) == ""
  }

  function NonBlank(segs: seq<string>): seq<string> {
    if segs == [] then []
    else (if IsBlank(segs[0]) then [] else [segs[0]]) + NonBlank(segs[1..])
  }

  /** The statements of a script: its segments, without the blank ones. */
  function Split(sql: string): seq<string> {
    NonBlank(Segments(Start, sql))
  }

  /** The delimiter of a dollar quote that `s` begins with: a `$`, tag runes, a `$`. */
  predicate IsTag(tag: string) {
    && |tag| >= 2 && tag[0] == '$' && tag[|tag| - 1] == '$'
    && forall k :: 0 < k < |tag| - 1 ==> IsTagRune(tag[k])
  }
}
