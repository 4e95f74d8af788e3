/** Composite names of the form owner + separator + name, as index keys and group names are built. */
module Keys {

  predicate Free(s: string, c: char) {
    c !in s
  }

  /** Two owners can give the same key for some names exactly when one of them, separated, begins the other. */
  lemma CollideIff(sep: string, t1: string, t2: string)
    ensures (exists n1, n2 :: Collide(sep, t1, t2, n1, n2)) <==> t1 + sep <= t2 + sep || t2 + sep <= t1 + sep
  {
    if n1, n2 :| Collide(sep, t1, t2, n1, n2) {
      var key := t1 + sep + n1;
      assert key[..|t1 + sep|] == t1 + sep && key[..|t2 + sep|] == t2 + sep;
      if |t1| <= |t2| {
        assert (t2 + sep)[..|t1 + sep|] == key[..|t1 + sep|];
      } else {
        assert (t1 + sep)[..|t2 + sep|] == key[..|t2 + sep|];
      }
    }
    if t1 + sep <= t2 + sep {
      assert Collide(sep, t1, t2, (t2 + sep)[|t1 + sep|..], "");
    } else if t2 + sep <= t1 + sep {
      assert Collide(sep, t1, t2, "", (t1 + sep)[|t2 + sep|..]);
    }
  }

  ghost predicate Collide(sep: string, t1: string, t2: string, n1: string, n2: string) {
    t1 + sep + n1 == t2 + sep + n2
  }

  /** Owners free of the separator's first rune never collide: their keys are decoded by its first occurrence. */
  lemma FreeOwnersInjective(sep: string, t1: string, n1: string, t2: string, n2: string)
    requires sep != "" && Free(t1, sep[0]) && Free(t2, sep[0])
    requires t1 + sep + n1 == t2 + sep + n2
    ensures t1 == t2 && n1 == n2
  {
    var key := t1 + sep + n1;
    assert key[|t1|] == sep[0] && key[|t2|] == sep[0];
    assert forall i :: 0 <= i < |t1| ==> key[i] == t1[i];
    assert forall i :: 0 <= i < |t2| ==> key[i] == t2[i];
    assert |t1| == |t2|;
    assert key[..|t1|] == t1 && key[..|t2|] == t2;
    assert key[|t1| + |sep|..] == n1 && key[|t2| + |sep|..] == n2;
  }

  /** The first index of `c`, the length of `s` if there is none. */
  function IndexOf(s: string, c: char): (i: nat)
    ensures i <= |s| && Free(s[..i], c) && (i < |s| ==> s[i] == c)
  {
    if s == [] || s[0] == c then 0 else
      var i := IndexOf(s[1..], c) + 1;
      assert s[..i] == [s[0]] + s[1..][..i - 1];
      i
  }

  lemma IndexOfIs(s: string, c: char, i: nat)
    requires i < |s| && Free(s[..i], c) && s[i] == c
    ensures IndexOf(s, c) == i
  {
    var j := IndexOf(s, c);
    assert forall k :: 0 <= k < i ==> s[..i][k] == s[k];
    assert forall k :: 0 <= k < j ==> s[..j][k] == s[k];
  }

  lemma IndexAtMost(s: string, c: char, k: nat)
    requires k < |s| && s[k] == c
    ensures IndexOf(s, c) <= k
  {
    var i := IndexOf(s, c);
    assert forall j :: 0 <= j < i ==> s[..i][j] == s[j];
  }
}
