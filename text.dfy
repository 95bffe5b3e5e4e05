/** The string operations of Rust's `str`/`String` that the recompiler relies on:
    substring search (`find`), last-occurrence search (`rfind`) and the cut that
    `split_off` makes when only the text after the last `/` is kept. */
module Text {
  import opened Common

  /** `pat` occurs in `s` starting at offset `i`. */
  predicate OccursAt(s: string, pat: string, i: nat) {
    i + |pat| <= |s| && s[i..i + |pat|] == pat
  }

  /** `s.find(pat).is_some()`: try every start offset from the left. */
  predicate Contains(s: string, pat: string)
    decreases |s|
  {
    |pat| <= |s| && (s[..|pat|] == pat || (|s| > 0 && Contains(s[1..], pat)))
  }

  /** The left-to-right search finds `pat` exactly when it occurs somewhere. */
  lemma {:induction false} ContainsIff(s: string, pat: string)
    ensures Contains(s, pat) <==> exists i: nat :: OccursAt(s, pat, i)
    decreases |s|
  {
    if |pat| > |s| {
      assert forall i: nat :: !OccursAt(s, pat, i);
    } else if s[..|pat|] == pat {
      assert OccursAt(s, pat, 0);
    } else if |s| > 0 {
      ContainsIff(s[1..], pat);
      if Contains(s[1..], pat) {
        var i: nat :| OccursAt(s[1..], pat, i);
        assert s[i + 1..i + 1 + |pat|] == s[1..][i..i + |pat|];
        assert OccursAt(s, pat, i + 1);
      }
      if exists i: nat :: OccursAt(s, pat, i) {
        var i: nat :| OccursAt(s, pat, i);
        assert i != 0;
        assert s[1..][i - 1..i - 1 + |pat|] == s[i..i + |pat|];
        assert OccursAt(s[1..], pat, i - 1);
      }
    }
  }

  /** Every character of a pattern found in `s` is a character of `s`. */
  lemma ContainsCharOf(s: string, pat: string, c: char)
    requires Contains(s, pat) && c in pat
    ensures c in s
  {
    ContainsIff(s, pat);
    var i: nat :| OccursAt(s, pat, i);
    var j :| 0 <= j < |pat| && pat[j] == c;
    assert s[i + j] == s[i..i + |pat|][j];
  }

  /** `s.rfind(c)`: the index of the last occurrence of `c`, if there is one. */
  function LastIndexOf(s: string, c: char): (r: Option<nat>)
    ensures r.Some? ==> r.value < |s| && s[r.value] == c && c !in s[r.value + 1..]
    ensures r.None? ==> c !in s
  {
    if |s| == 0 then None
    else if s[|s| - 1] == c then Some(|s| - 1)
    else
      var r := LastIndexOf(s[..|s| - 1], c);
      assert r.Some? ==> s[r.value + 1..] == s[..|s| - 1][r.value + 1..] + [s[|s| - 1]];
      assert s == s[..|s| - 1] + [s[|s| - 1]];
      r
  }

  /** The offset `split_off` cuts at: just after the last `/`, or 0 when there is none. */
  function LeafStart(s: string): (k: nat)
    ensures k <= |s|
  {
    match LastIndexOf(s, '/')
    case Some(i) => i + 1
    case None => 0
  }

  /** The text after the last `/` (all of `s` when it has none): the part `split_off` returns. */
  function Leaf(s: string): (leaf: string)
    ensures '/' !in leaf
    ensures s == Dir(s) + leaf
    ensures Dir(s) == [] || Dir(s)[|Dir(s)| - 1] == '/'
  {
    s[LeafStart(s)..]
  }

  /** The text up to and including the last `/`: what `split_off` leaves behind in `s`. */
  function Dir(s: string): string {
    s[..LeafStart(s)]
  }

  /** The cut is the only one that leaves a `/`-free tail after a head that is empty or
      ends in `/`; so `Leaf` and `Dir` are determined by those three facts alone. */
  lemma LeafUnique(s: string, dir: string, leaf: string)
    requires s == dir + leaf && '/' !in leaf
    requires dir == [] || dir[|dir| - 1] == '/'
    ensures Leaf(s) == leaf && Dir(s) == dir
  {
    var k := LeafStart(s);
    if k > |dir| {
      assert false;
    } else if k < |dir| {
      NoSlashInLeaf(s, |dir| - 1);
      assert false;
    }
  }

  /** No `/` lies at or after the cut. */
  lemma NoSlashInLeaf(s: string, j: nat)
    requires LeafStart(s) <= j < |s|
    ensures s[j] != '/'
  {
    assert s[j] == Leaf(s)[j - LeafStart(s)];
  }

  /** Taking the leaf of a leaf changes nothing. */
  lemma LeafIdempotent(s: string)
    ensures Leaf(Leaf(s)) == Leaf(s)
  {
    LeafUnique(Leaf(s), [], Leaf(s));
  }
}
