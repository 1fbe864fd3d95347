/** The synthesised split of a text at a separator. */
module StrSplit {
  import opened Options

  /** A part as the routine stores it: where it starts and how long it is. */
  datatype View = View(at: nat, len: nat)

  predicate Occurs(s: string, sep: string, at: nat) {
    at + |sep| <= |s| && s[at..at + |sep|] == sep
  }

  function Join(parts: seq<string>, sep: string): string
    requires parts != []
  {
    if |parts| == 1 then parts[0] else parts[0] + sep + Join(parts[1..], sep)
  }

  ghost predicate NoneBefore(s: string, sep: string, n: nat) {
    forall k: nat :: k < n ==> !Occurs(s, sep, k)
  }

  /** Cut at the first occurrence, then again in what follows it. */
  ghost predicate Leftmost(s: string, sep: string, parts: seq<string>)
    decreases |parts|
  {
    && parts != []
    && if |parts| == 1 then parts[0] == s && NoneBefore(s, sep, |s| + 1)
       else
         var n := |parts[0]|;
         && Occurs(s, sep, n) && s[..n] == parts[0] && NoneBefore(s, sep, n)
         && Leftmost(s[n + |sep|..], sep, parts[1..])
  }

  /** Joining the parts with the separator gives back the text. */
  lemma {:induction false} LeftmostJoins(s: string, sep: string, parts: seq<string>)
    requires Leftmost(s, sep, parts)
    ensures Join(parts, sep) == s
    decreases |parts|
  {
    if |parts| > 1 {
      var n := |parts[0]|;
      LeftmostJoins(s[n + |sep|..], sep, parts[1..]);
      assert s == s[..n] + s[n..n + |sep|] + s[n + |sep|..];
    }
  }

  /** A text has one such split. */
  lemma {:induction false} LeftmostUnique(s: string, sep: string, a: seq<string>, b: seq<string>)
    requires sep != "" && Leftmost(s, sep, a) && Leftmost(s, sep, b)
    ensures a == b
    decreases |a|
  {
    if |a| > 1 && |b| > 1 {
      assert |a[0]| == |b[0]|;
      LeftmostUnique(s[|a[0]| + |sep|..], sep, a[1..], b[1..]);
      assert a == [a[0]] + a[1..] && b == [b[0]] + b[1..];
    }
  }

  // ---- the scan both passes make ----

  /** The parts from `ps` on when the scan stands at `i`. */
  function Scan(s: string, sep: string, ps: nat, i: nat): (views: seq<View>)
    requires sep != "" && ps <= i && ps <= |s|
    ensures views != []
    decreases |s| - i
  {
    if i + |sep| > |s| then [View(ps, |s| - ps)]
    else if s[i..i + |sep|] == sep then [View(ps, i - ps)] + Scan(s, sep, i + |sep|, i + |sep|)
    else Scan(s, sep, ps, i + 1)
  }

  predicate InBounds(s: string, views: seq<View>) {
    forall k :: 0 <= k < |views| ==> views[k].at + views[k].len <= |s|
  }

  function Parts(s: string, views: seq<View>): seq<string>
    requires InBounds(s, views)
  {
    seq(|views|, k requires 0 <= k < |views| => s[views[k].at..views[k].at + views[k].len])
  }

  lemma OccursShift(s: string, sep: string, ps: nat, k: nat)
    requires ps <= |s|
    ensures Occurs(s[ps..], sep, k) <==> Occurs(s, sep, ps + k)
  {
    if ps + k + |sep| <= |s| { assert s[ps..][k..k + |sep|] == s[ps + k..ps + k + |sep|]; }
  }

  lemma PartsCons(s: string, v: View, rest: seq<View>)
    requires v.at + v.len <= |s| && InBounds(s, rest)
    ensures InBounds(s, [v] + rest) && Parts(s, [v] + rest) == [s[v.at..v.at + v.len]] + Parts(s, rest)
  {
    forall k | 0 <= k < |rest| + 1 ensures ([v] + rest)[k] == if k == 0 then v else rest[k - 1] {
    }
  }

  ghost predicate Splits(s: string, sep: string, ps: nat, views: seq<View>) {
    ps <= |s| && InBounds(s, views) && Leftmost(s[ps..], sep, Parts(s, views))
  }

  lemma SplitsEnd(s: string, sep: string, ps: nat, i: nat)
    requires ps <= i && ps <= |s| && i + |sep| > |s| && NoneBefore(s[ps..], sep, i - ps)
    ensures Splits(s, sep, ps, [View(ps, |s| - ps)])
  {
    PartsOne(s, View(ps, |s| - ps));
    assert s[ps..ps + (|s| - ps)] == s[ps..];
    hide Parts, Leftmost, NoneBefore;
    NoneLeft(s[ps..], sep, i - ps);
  }

  lemma SplitsHit(s: string, sep: string, ps: nat, i: nat, rest: seq<View>)
    requires ps <= i && Occurs(s, sep, i) && NoneBefore(s[ps..], sep, i - ps)
    requires Splits(s, sep, i + |sep|, rest)
    ensures Splits(s, sep, ps, [View(ps, i - ps)] + rest)
  {
    var t := s[ps..];
    OccursShift(s, sep, ps, i - ps);
    PartsCons(s, View(ps, i - ps), rest);
    assert t[..i - ps] == s[ps..ps + (i - ps)] && t[i - ps + |sep|..] == s[i + |sep|..];
    hide Parts, Leftmost, NoneBefore, Occurs, InBounds;
    FoundLeftmost(t, sep, i - ps, Parts(s, rest));
  }

  lemma NotHere(s: string, sep: string, ps: nat, i: nat)
    requires ps <= i && ps <= |s| && !Occurs(s, sep, i) && NoneBefore(s[ps..], sep, i - ps)
    ensures NoneBefore(s[ps..], sep, i + 1 - ps)
  {
    OccursShift(s, sep, ps, i - ps);
    hide Occurs;
  }

  /** The scan finds the leftmost split of the rest of the text. */
  lemma {:induction false} ScanLeftmost(s: string, sep: string, ps: nat, i: nat)
    requires sep != "" && ps <= i && ps <= |s| && NoneBefore(s[ps..], sep, i - ps)
    ensures Splits(s, sep, ps, Scan(s, sep, ps, i))
    decreases |s| - i
  {
    hide Splits, NoneBefore;
    if i + |sep| > |s| {
      SplitsEnd(s, sep, ps, i);
    } else if s[i..i + |sep|] == sep {
      NothingBefore(s[i + |sep|..], sep);
      ScanLeftmost(s, sep, i + |sep|, i + |sep|);
      SplitsHit(s, sep, ps, i, Scan(s, sep, i + |sep|, i + |sep|));
    } else {
      NotHere(s, sep, ps, i);
      ScanLeftmost(s, sep, ps, i + 1);
    }
  }

  lemma NothingBefore(t: string, sep: string)
    ensures NoneBefore(t, sep, 0)
  {
  }

  lemma PartsOne(s: string, v: View)
    requires v.at + v.len <= |s|
    ensures InBounds(s, [v]) && Parts(s, [v]) == [s[v.at..v.at + v.len]]
  {
  }

  lemma NoneLeft(t: string, sep: string, n: nat)
    requires n + |sep| > |t| && NoneBefore(t, sep, n)
    ensures Leftmost(t, sep, [t])
  {
  }

  lemma FoundLeftmost(t: string, sep: string, n: nat, rest: seq<string>)
    requires Occurs(t, sep, n) && NoneBefore(t, sep, n)
    requires n + |sep| <= |t| && Leftmost(t[n + |sep|..], sep, rest)
    ensures Leftmost(t, sep, [t[..n]] + rest)
  {
    hide Occurs, NoneBefore;
    var parts := [t[..n]] + rest;
    assert parts[0] == t[..n] && |parts[0]| == n;
    assert parts[1..] == rest;
  }

  // ---- the emitted routine ----

  /** cmm.str.matchat. */
  method MatchAt(hay: string, needle: string, at: nat) returns (yes: bool)
    requires at + |needle| <= |hay|
    ensures yes == (hay[at..at + |needle|] == needle)
  {
    var j := 0;
    while j < |needle|
      invariant j <= |needle| && hay[at..at + j] == needle[..j]
    {
      if hay[at + j] != needle[j] {
        assert hay[at..at + |needle|][j] != needle[j];
        return false;
      }
      assert hay[at..at + j + 1] == hay[at..at + j] + [hay[at + j]];
      j := j + 1;
    }
    assert needle[..j] == needle;
    yes := true;
  }

  /** split, with the panic on an empty separator as None. The first pass counts, the second
      fills an array of exactly that many views; the parts are the leftmost split. */
  method Split(s: string, sep: string) returns (r: Option<array<View>>)
    ensures r.None? <==> sep == ""
    ensures r.Some? ==> InBounds(s, r.value[..]) && Leftmost(s, sep, Parts(s, r.value[..]))
  {
    if |sep| == 0 { return None; }
    var cnt := CountParts(s, sep);
    var arr := new View[cnt](_ => View(0, 0));
    FillParts(s, sep, arr);
    NothingBefore(s[0..], sep);
    ScanLeftmost(s, sep, 0, 0);
    assert s[0..] == s;
    hide Leftmost, Parts, InBounds;
    r := Some(arr);
  }

  /** The first pass: one part more than separators met. */
  method CountParts(s: string, sep: string) returns (cnt: nat)
    requires sep != ""
    ensures cnt == |Scan(s, sep, 0, 0)|
  {
    var i: nat := 0;
    cnt := 1;
    ghost var ps: nat := 0;
    while i + |sep| <= |s|
      invariant ps <= i && ps <= |s| && |Scan(s, sep, 0, 0)| == cnt - 1 + |Scan(s, sep, ps, i)|
    {
      var hit := MatchAt(s, sep, i);
      if hit {
        cnt, i := cnt + 1, i + |sep|;
        ps := i;
      } else {
        i := i + 1;
      }
    }
  }

  /** The second pass: every store is inside the array counted before. */
  method FillParts(s: string, sep: string, arr: array<View>)
    requires sep != "" && arr.Length == |Scan(s, sep, 0, 0)|
    modifies arr
    ensures arr[..] == Scan(s, sep, 0, 0)
  {
    ghost var all := Scan(s, sep, 0, 0);
    var i: nat := 0;
    var ps: nat, idx: nat := 0, 0;
    assert arr[..0] + all == all;
    while i + |sep| <= |s|
      invariant ps <= i && ps <= |s| && idx + |Scan(s, sep, ps, i)| == arr.Length
      invariant all == arr[..idx] + Scan(s, sep, ps, i)
      modifies arr
    {
      var hit := MatchAt(s, sep, i);
      if hit {
        Regroup(arr[..idx], View(ps, i - ps), Scan(s, sep, i + |sep|, i + |sep|));
        Put(arr, idx, View(ps, i - ps));
        idx, i := idx + 1, i + |sep|;
        ps := i;
      } else {
        i := i + 1;
      }
    }
    Put(arr, idx, View(ps, |s| - ps));
    assert arr[..] == arr[..idx + 1];
  }

  lemma Regroup(a: seq<View>, v: View, b: seq<View>)
    ensures a + ([v] + b) == (a + [v]) + b
  {
  }

  method Put(arr: array<View>, at: nat, v: View)
    requires at < arr.Length
    modifies arr
    ensures arr[..at] == old(arr[..at]) && arr[..at + 1] == old(arr[..at]) + [v]
  {
    arr[at] := v;
    assert arr[..at + 1] == arr[..at] + [v];
  }
}
