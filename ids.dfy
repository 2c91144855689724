/**
 * Card identifiers. Every card of the deck gets an id of the form
 * `segment_segment_..._n` built with a template literal: words joined by
 * underscores, ending in a decimal counter. This module models the decimal
 * rendering of a counter and the joining of segments, and proves both can be
 * undone; that is what makes the deck's ids pairwise distinct.
 */
module CardIds {

  /** The decimal digit character for `d`. */
  function Digit(d: nat): (c: char)
    requires d < 10
    ensures '0' <= c <= '9'
  {
    ('0' as int + d) as char
  }

  function DigitValue(c: char): nat
    requires '0' <= c <= '9'
  {
    c as int - '0' as int
  }

  /** `${n}` for a non-negative integer: its decimal digits, most significant first. */
  function NatStr(n: nat): (s: string)
    ensures |s| > 0
    ensures forall i :: 0 <= i < |s| ==> '0' <= s[i] <= '9'
    decreases n
  {
    if n < 10 then [Digit(n)] else NatStr(n / 10) + [Digit(n % 10)]
  }

  /** Reads a string of decimal digits back as a number. */
  function ParseNat(s: string): nat
    requires forall i :: 0 <= i < |s| ==> '0' <= s[i] <= '9'
    decreases |s|
  {
    if s == [] then 0 else ParseNat(s[..|s| - 1]) * 10 + DigitValue(s[|s| - 1])
  }

  lemma {:induction false} ParseNatStr(n: nat)
    ensures ParseNat(NatStr(n)) == n
    decreases n
  {
    var s := NatStr(n);
    if n < 10 {
      assert s[..|s| - 1] == [];
    } else {
      ParseNatStr(n / 10);
      assert s[..|s| - 1] == NatStr(n / 10);
    }
  }

  /** Distinct counters render as distinct strings. */
  lemma NatStrInjective(a: nat, b: nat)
    ensures NatStr(a) == NatStr(b) ==> a == b
  {
    ParseNatStr(a);
    ParseNatStr(b);
  }

  /** A segment of an id: it contains no underscore. */
  predicate IsSegment(s: string)
  {
    forall i :: 0 <= i < |s| ==> s[i] != '_'
  }

  lemma NatStrIsSegment(n: nat)
    ensures IsSegment(NatStr(n))
  {
  }

  predicate AllSegments(segs: seq<string>)
  {
    forall k :: 0 <= k < |segs| ==> IsSegment(segs[k])
  }

  /** The id built by the template literal from its segments. */
  function Join(segs: seq<string>): string
    requires |segs| > 0
    decreases |segs|
  {
    if |segs| == 1 then segs[0] else segs[0] + "_" + Join(segs[1..])
  }

  /** Position of the first underscore of `s`, if any. */
  function SepIndex(s: string): (i: nat)
    requires !IsSegment(s)
    ensures i < |s| && s[i] == '_'
    ensures IsSegment(s[..i])
    decreases |s|
  {
    if s[0] == '_' then 0
    else
      assert !IsSegment(s[1..]) by {
        var j :| 0 <= j < |s| && s[j] == '_';
        assert s[1..][j - 1] == '_';
      }
      var k := SepIndex(s[1..]);
      assert s[..k + 1] == [s[0]] + s[1..][..k];
      k + 1
  }

  /** Cuts an id at every underscore, the inverse of `Join`. */
  function Split(s: string): (r: seq<string>)
    ensures |r| > 0
    decreases |s|
  {
    if IsSegment(s) then [s] else var i := SepIndex(s); [s[..i]] + Split(s[i + 1..])
  }

  lemma {:induction false} SplitJoin(segs: seq<string>)
    requires |segs| > 0 && AllSegments(segs)
    ensures Split(Join(segs)) == segs
    decreases |segs|
  {
    if |segs| > 1 {
      var a, rest := segs[0], Join(segs[1..]);
      var s := a + "_" + rest;
      assert s[|a|] == '_';
      assert !IsSegment(s);
      var i := SepIndex(s);
      assert i == |a|;
      assert s[..i] == a;
      assert s[i + 1..] == rest;
      assert AllSegments(segs[1..]) by {
        forall k | 0 <= k < |segs[1..]| ensures IsSegment(segs[1..][k]) {
          assert segs[1..][k] == segs[k + 1];
        }
      }
      SplitJoin(segs[1..]);
      assert [a] + segs[1..] == segs;
    }
  }

  /** Ids built from different segment lists are different. */
  lemma JoinInjective(a: seq<string>, b: seq<string>)
    requires |a| > 0 && AllSegments(a)
    requires |b| > 0 && AllSegments(b)
    ensures Join(a) == Join(b) ==> a == b
  {
    SplitJoin(a);
    SplitJoin(b);
  }
}
