/** What is left of a script when blank segments are dropped and statements are trimmed. */
module SqlStatements {
  import opened SqlLexer

  /** White space by code point. */
  predicate White(c: char) {
    var n := c as int;
    || 9 <= n <= 13 || n in {32, 133, 160, 5760, 8232, 8233, 8239, 8287, 12288} || 8192 <= n <= 8202
  }

  ghost predicate AllWhite(s: string) {
    forall c :: c in s ==> White(c)
  }

  /** Neither end of `s` is white space. */
  predicate Trimmed(s: string) {
    s == "" || (!White(s[0]) && !White(s[|s| - 1]))
  }

  lemma {:induction false} TrimLeftLaw(s: string) returns (a: string)
    ensures s == a + TrimLeft(s) && AllWhite(a) && (TrimLeft(s) != "" ==> !White(TrimLeft(s)[0]))
    decreases |s|
  {
    if s != "" && IsSpace(s[0]) {
      var b := TrimLeftLaw(s[1..]);
      a := [s[0]] + b;
    } else {
      a := "";
    }
  }

  lemma {:induction false} TrimRightLaw(s: string) returns (b: string)
    ensures s == TrimRight(s) + b && AllWhite(b)
    ensures TrimRight(s) != "" ==> !White(TrimRight(s)[|TrimRight(s)| - 1]) && TrimRight(s)[0] == s[0]
    decreases |s|
  {
    if s != "" && IsSpace(s[|s| - 1]) {
      var n := |s| - 1;
      var c := TrimRightLaw(s[..n]);
      b := c + [s[n]];
      assert s == s[..n] + [s[n]];
    } else {
      b := "";
    }
  }

  /** Trimming takes white space off both ends, all of it and nothing else. */
  lemma TrimLaw(s: string) returns (a: string, b: string)
    ensures s == a + TrimSpace(s) + b && AllWhite(a) && AllWhite(b) && Trimmed(TrimSpace(s))
  {
    a := TrimLeftLaw(s);
    b := TrimRightLaw(TrimLeft(s));
  }

  /** A segment is blank exactly if it is all white space. */
  lemma BlankIff(s: string)
    ensures IsBlank(s) <==> AllWhite(s)
  {
    var a, b := TrimLaw(s);
    var t := TrimSpace(s);
    if t != "" {
      assert s[|a|] == t[0];
      assert t[0] in s;
    }
  }

  /** The places of the texts that are not blank, from `from` on. */
  function Places(texts: seq<string>, from: nat): seq<nat>
    requires from <= |texts|
    decreases |texts| - from
  {
    if from == |texts| then []
    else if IsBlank(texts[from]) then Places(texts, from + 1)
    else [from] + Places(texts, from + 1)
  }

  /** They are the places of texts that are not blank, all of them and in order. */
  lemma {:induction false} PlacesAre(texts: seq<string>, from: nat)
    requires from <= |texts|
    ensures var at := Places(texts, from);
            && (forall k :: 0 <= k < |at| ==> from <= at[k] < |texts| && !IsBlank(texts[at[k]]))
            && (forall k, l :: 0 <= k < l < |at| ==> at[k] < at[l])
            && (forall i :: from <= i < |texts| && !IsBlank(texts[i]) ==> i in at)
    decreases |texts| - from
  {
    if from < |texts| { PlacesAre(texts, from + 1); }
  }

  /** `kept` are the texts at those places, `f`-ed. */
  ghost predicate KeptAt(texts: seq<string>, kept: seq<string>, at: seq<nat>, f: string -> string) {
    |kept| == |at| && forall k :: 0 <= k < |at| ==> at[k] < |texts| && kept[k] == f(texts[at[k]])
  }

  lemma KeptOneMore(texts: seq<string>, kept: seq<string>, at: seq<nat>, f: string -> string, i: nat)
    requires KeptAt(texts, kept, at, f) && i < |texts|
    ensures KeptAt(texts, [f(texts[i])] + kept, [i] + at, f)
  {
  }

  lemma {:induction false} NonBlankPlaces(segs: seq<string>, from: nat)
    requires from <= |segs|
    ensures KeptAt(segs, NonBlank(segs[from..]), Places(segs, from), (s: string) => s)
    decreases |segs| - from
  {
    if from < |segs| {
      NonBlankPlaces(segs, from + 1);
      NonBlankStep(segs, from);
      KeptOneMore(segs, NonBlank(segs[from + 1..]), Places(segs, from + 1), (s: string) => s, from);
    }
  }

  lemma NonBlankStep(segs: seq<string>, from: nat)
    requires from < |segs|
    ensures var rest := NonBlank(segs[from + 1..]);
            NonBlank(segs[from..]) == if IsBlank(segs[from]) then rest else [segs[from]] + rest
  {
    assert segs[from..][1..] == segs[from + 1..];
  }

  /** The statements of a script are its segments that are not all white space, unchanged and in order. */
  lemma SplitPlaces(sql: string)
    ensures var segs := Segments(Start, sql); KeptAt(segs, Split(sql), Places(segs, 0), (s: string) => s)
  {
    NonBlankPlaces(Segments(Start, sql), 0);
    assert Segments(Start, sql)[0..] == Segments(Start, sql);
  }

  lemma {:induction false} NoneBlank(segs: seq<string>)
    ensures forall p :: p in NonBlank(segs) ==> !IsBlank(p)
  {
    if segs != [] { NoneBlank(segs[1..]); }
  }
}
