/** What the program asks of Go's strings and bytes packages in more than one place, over ASCII text. */
module Text {
  /** strings.ToLower. */
  function Lower(s: string): string {
    seq(|s|, i requires 0 <= i < |s| => if 'A' <= s[i] <= 'Z' then s[i] - 'A' + 'a' else s[i])
  }

  /** strings.EqualFold. */
  predicate EqualFold(a: string, b: string) {
    Lower(a) == Lower(b)
  }

  /** Two texts that differ at most in the case of letters. */
  predicate SameLetters(a: string, b: string) {
    && |a| == |b|
    && forall i | 0 <= i < |a| ::
         || a[i] == b[i]
         || ('A' <= a[i] <= 'Z' && b[i] as int == a[i] as int + 32)
         || ('A' <= b[i] <= 'Z' && a[i] as int == b[i] as int + 32)
  }

  lemma EqualFoldIff(a: string, b: string)
    ensures EqualFold(a, b) <==> SameLetters(a, b)
  {
    if EqualFold(a, b) {
      forall i | 0 <= i < |a|
        ensures a[i] == b[i] || ('A' <= a[i] <= 'Z' && b[i] as int == a[i] as int + 32)
                || ('A' <= b[i] <= 'Z' && a[i] as int == b[i] as int + 32)
      {
        assert Lower(a)[i] == Lower(b)[i];
      }
    }
    if SameLetters(a, b) {
      assert forall i | 0 <= i < |a| :: Lower(a)[i] == Lower(b)[i];
      assert Lower(a) == Lower(b);
    }
  }

  /** m stands in s at index i. */
  predicate OccursAt(s: string, m: string, i: nat) {
    i + |m| <= |s| && s[i..i + |m|] == m
  }

  /** strings.Contains and bytes.Contains. */
  predicate Contains(s: string, m: string) {
    exists i | 0 <= i <= |s| :: OccursAt(s, m, i)
  }

  lemma ContainsIff(s: string, m: string)
    ensures Contains(s, m) <==> exists a, b :: s == a + m + b
  {
    if Contains(s, m) {
      var i :| 0 <= i <= |s| && OccursAt(s, m, i);
      assert s == s[..i] + m + s[i + |m|..];
    }
    forall a, b | s == a + m + b ensures OccursAt(s, m, |a|) {
      assert s[|a|..|a| + |m|] == m;
    }
  }

  lemma HasPrefixIff(s: string, p: string)
    ensures HasPrefix(s, p) <==> exists b :: s == p + b
  {
    if HasPrefix(s, p) {
      assert s == p + s[|p|..];
    }
  }

  /** strings.HasPrefix. */
  predicate HasPrefix(s: string, p: string) {
    |p| <= |s| && s[..|p|] == p
  }
}
