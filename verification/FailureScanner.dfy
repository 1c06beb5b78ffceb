/**
  The scanner on OpenOCD's stderr: it passes every write on to the user's writer and watches for a
  failed SWD connect. It keeps only the last maxMarkerTail bytes, yet must agree with a search of the
  whole stream however OpenOCD's output was cut into writes.
*/
module FailureScanning {
  import opened Text
  import opened Sequences

  const MAX_MARKER_TAIL: nat := 32

  const MARKERS: seq<string> := ["cannot read IDR", "Error connecting DP"]

  predicate ContainsAny(s: string, markers: seq<string>) {
    exists k | 0 <= k < |markers| :: Contains(s, markers[k])
  }

  /** The last n characters of s, or all of a shorter s. */
  function LastOf(s: string, n: nat): string {
    if |s| > n then s[|s| - n..] else s
  }

  datatype Scan = Scan(tail: string, matched: bool)

  /** One write seen by a scanner that keeps t characters. */
  function Step(scan: Scan, p: string, markers: seq<string>, t: nat): Scan {
    var text := scan.tail + p;
    Scan(LastOf(text, t), scan.matched || ContainsAny(text, markers))
  }

  /** A whole run of writes. */
  function Run(writes: seq<string>, markers: seq<string>, t: nat): Scan {
    if writes == [] then Scan("", false)
    else Step(Run(writes[..|writes| - 1], markers, t), writes[|writes| - 1], markers, t)
  }

  lemma LastOfAppend(s: string, p: string, t: nat)
    ensures LastOf(LastOf(s, t) + p, t) == LastOf(s + p, t)
  {
    var cut := |s| - |LastOf(s, t)|;
    assert LastOf(s, t) == s[cut..];
    assert (s + p)[cut..] == s[cut..] + p;
  }

  /** A marker of at most t + 1 characters in s + p lies in s, or in the kept tail of s followed by p. */
  lemma NewOccurrence(s: string, p: string, m: string, t: nat)
    requires |m| <= t + 1
    ensures Contains(s + p, m) <==> Contains(s, m) || Contains(LastOf(s, t) + p, m)
  {
    var kept := LastOf(s, t);
    var cut := |s| - |kept|;
    assert s + p == s[..cut] + (kept + p);
    forall i: nat | OccursAt(s + p, m, i)
      ensures Contains(s, m) || Contains(kept + p, m)
    {
      if i >= cut {
        assert (s + p)[i..i + |m|] == (kept + p)[i - cut..i - cut + |m|];
        assert OccursAt(kept + p, m, i - cut);
      } else {
        assert (s + p)[i..i + |m|] == s[i..i + |m|];
        assert OccursAt(s, m, i);
      }
    }
    forall i: nat | OccursAt(s, m, i)
      ensures Contains(s + p, m)
    {
      assert s[i..i + |m|] == (s + p)[i..i + |m|];
      assert OccursAt(s + p, m, i);
    }
    forall i: nat | OccursAt(kept + p, m, i)
      ensures Contains(s + p, m)
    {
      assert (kept + p)[i..i + |m|] == (s + p)[cut + i..cut + i + |m|];
      assert OccursAt(s + p, m, cut + i);
    }
  }

  /** A tail of t characters is enough for markers of at most t + 1: the scan equals a search of the whole stream. */
  lemma {:induction false} ScanIsSearch(writes: seq<string>, markers: seq<string>, t: nat)
    requires forall k | 0 <= k < |markers| :: 0 < |markers[k]| <= t + 1
    ensures Run(writes, markers, t)
      == Scan(LastOf(Flatten(writes), t), ContainsAny(Flatten(writes), markers))
  {
    if writes != [] {
      var front, p := writes[..|writes| - 1], writes[|writes| - 1];
      ScanIsSearch(front, markers, t);
      LastOfAppend(Flatten(front), p, t);
      forall k | 0 <= k < |markers|
        ensures Contains(Flatten(writes), markers[k])
          <==> Contains(Flatten(front), markers[k]) || Contains(LastOf(Flatten(front), t) + p, markers[k])
      {
        NewOccurrence(Flatten(front), p, markers[k], t);
      }
    } else {
      forall k | 0 <= k < |markers| ensures !Contains("", markers[k]) {}
    }
  }

  /** Two writes without a marker in the first, nor in the second behind what is kept of the first. */
  lemma TwoWrites(first: string, last: string, markers: seq<string>, t: nat)
    ensures Flatten([first, last]) == first + last
    ensures !ContainsAny(first, markers) && !ContainsAny(LastOf(first, t) + last, markers)
            ==> !Run([first, last], markers, t).matched
  {
    var writes := [first, last];
    assert [first][..0] == [] && writes[..1] == [first];
    assert "" + first == first;
    assert Flatten([first]) == first;
    assert Run([first], markers, t) == Scan(LastOf(first, t), ContainsAny(first, markers));
  }

  /** ... and it is needed: a longer marker is missed when its last character comes in a write of its own. */
  lemma TailTooShort(m: string, t: nat)
    requires |m| > t + 1
    ensures var writes := [m[..|m| - 1], m[|m| - 1..]];
            Contains(Flatten(writes), m) && !Run(writes, [m], t).matched
  {
    var first, last := m[..|m| - 1], m[|m| - 1..];
    TwoWrites(first, last, [m], t);
    assert first + last == m && OccursAt(m, m, 0);
    assert forall i: nat :: !OccursAt(first, m, i) && !OccursAt(LastOf(first, t) + last, m, i);
  }

  /**
    How long the tail must be for one marker: the scan finds m in every cut of every stream exactly when it keeps
    |m| - 1 characters.
  */
  lemma TailSufficesIff(m: string, t: nat)
    requires m != ""
    ensures (forall writes: seq<string> :: Run(writes, [m], t).matched <==> Contains(Flatten(writes), m))
      <==> |m| <= t + 1
  {
    if |m| <= t + 1 {
      forall writes: seq<string> ensures Run(writes, [m], t).matched <==> Contains(Flatten(writes), m) {
        ScanIsSearch(writes, [m], t);
        assert [m][0] == m;
      }
    } else {
      TailTooShort(m, t);
    }
  }

  lemma NeitherMarker(s: string, from: nat)
    requires from + |s| <= |MARKERS[1]| && |s| < |MARKERS[1]| && s == MARKERS[1][from..from + |s|]
    ensures !ContainsAny(s, MARKERS)
  {
    ShorterMarkerIsNotIn(s, from);
  }

  /** A tail of at most 17 characters misses the longer marker when its last character comes in a write of its own. */
  lemma ShortTailMisses(t: nat)
    requires t < 18
    ensures var writes := [MARKERS[1][..18], MARKERS[1][18..]];
            ContainsAny(Flatten(writes), MARKERS) && !Run(writes, MARKERS, t).matched
  {
    var m := MARKERS[1];
    TwoWrites(m[..18], m[18..], MARKERS, t);
    assert m[..18] + m[18..] == m && OccursAt(m, m, 0);
    NeitherMarker(m[..18], 0);
    assert LastOf(m[..18], t) + m[18..] == m[18 - t..];
    NeitherMarker(m[18 - t..], 18 - t);
  }

  /** The shorter marker begins with a character the longer one does not have early enough. */
  lemma ShorterMarkerIsNotIn(s: string, from: nat)
    requires from + |s| <= |MARKERS[1]| && s == MARKERS[1][from..from + |s|]
    ensures !Contains(s, MARKERS[0])
  {
    var long, short := MARKERS[1], MARKERS[0];
    forall i: nat ensures !OccursAt(s, short, i) {
      if i + |short| <= |s| {
        assert s[i..i + |short|][0] == s[i] == long[from + i] != short[0];
      }
    }
  }

  /**
    How long the tail must be for the markers the code looks for: the scan finds one in every cut of every stream
    exactly when it keeps 18 characters.
  */
  lemma MarkersNeed18(t: nat)
    ensures (forall writes: seq<string> ::
               Run(writes, MARKERS, t).matched <==> ContainsAny(Flatten(writes), MARKERS)) <==> t >= 18
  {
    if t >= 18 {
      forall writes: seq<string> ensures Run(writes, MARKERS, t).matched <==> ContainsAny(Flatten(writes), MARKERS) {
        ScanIsSearch(writes, MARKERS, t);
      }
    } else {
      ShortTailMisses(t);
    }
  }

  /**
    The tail constant suits the markers: a scanner run over any writes finds a marker exactly when the stream has one.
  */
  lemma MarkersAreFound(writes: seq<string>)
    ensures Run(writes, MARKERS, MAX_MARKER_TAIL).matched <==> ContainsAny(Flatten(writes), MARKERS)
    ensures Run(writes, MARKERS, MAX_MARKER_TAIL).tail == LastOf(Flatten(writes), MAX_MARKER_TAIL)
  {
    ScanIsSearch(writes, MARKERS, MAX_MARKER_TAIL);
  }

  /** The user's writer: it takes some of each write and may fail. */
  class Writer {
    var got: string

    method Write(p: string) returns (n: nat, failed: bool)
      modifies this
      ensures n <= |p| && got == old(got) + p[..n]
    {
      n :| 0 <= n <= |p|;
      failed := *;
      got := got + p[..n];
    }
  }

  class FailureScanner {
    const w: Writer
    var tail: string
    var matched: bool
    ghost var writes: seq<string>

    ghost predicate Valid()
      reads this
    {
      Scan(tail, matched) == Run(writes, MARKERS, MAX_MARKER_TAIL)
    }

    constructor (w: Writer)
      ensures Valid() && writes == [] && this.w == w
    {
      this.w := w;
      tail, matched, writes := "", false, [];
    }

    /** Tees p and scans it; whatever the user's writer did with it is what the caller is told. */
    method Write(p: string) returns (n: nat, failed: bool)
      requires Valid()
      modifies this, w
      ensures Valid() && writes == old(writes) + [p]
      ensures matched <==> ContainsAny(Flatten(writes), MARKERS)
      ensures tail == LastOf(Flatten(writes), MAX_MARKER_TAIL)
      ensures n <= |p| && w.got == old(w.got) + p[..n]
    {
      n, failed := w.Write(p);
      var scan := tail + p;
      var k := 0;
      while k < |MARKERS|
        invariant 0 <= k <= |MARKERS|
        invariant matched == (old(matched) || exists j | 0 <= j < k :: Contains(scan, MARKERS[j]))
        modifies this`matched
      {
        if Contains(scan, MARKERS[k]) {
          matched := true;
          break;
        }
        k := k + 1;
      }
      if |scan| > MAX_MARKER_TAIL {
        scan := scan[|scan| - MAX_MARKER_TAIL..];
      }
      tail := scan;
      writes := writes + [p];
      assert writes[..|writes| - 1] == old(writes);
      MarkersAreFound(writes);
    }
  }
}
