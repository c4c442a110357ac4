/**
 * Python's ordering of `str` values (code point by code point, a proper
 * prefix first) and `sorted()` over a list of strings.
 */
module StrOrder {
  import opened Grouping

  /** `a < b` on Python strings. */
  predicate Less(a: string, b: string) {
    if a == [] then b != []
    else if b == [] then false
    else if a[0] != b[0] then a[0] < b[0]
    else Less(a[1..], b[1..])
  }

  lemma {:induction false} LessIrreflexive(a: string)
    ensures !Less(a, a)
  {
    if a != [] {
      LessIrreflexive(a[1..]);
    }
  }

  lemma {:induction false} LessTransitive(a: string, b: string, c: string)
    requires Less(a, b) && Less(b, c)
    ensures Less(a, c)
  {
    if a != [] && b != [] && c != [] && a[0] == b[0] && b[0] == c[0] {
      LessTransitive(a[1..], b[1..], c[1..]);
    }
  }

  lemma {:induction false} LessTotal(a: string, b: string)
    requires a != b
    ensures Less(a, b) || Less(b, a)
  {
    if a != [] && b != [] && a[0] == b[0] {
      assert a == [a[0]] + a[1..] && b == [b[0]] + b[1..];
      LessTotal(a[1..], b[1..]);
    }
  }

  predicate StrictlyAscending(s: seq<string>) {
    forall i, j :: 0 <= i < j < |s| ==> Less(s[i], s[j])
  }

  /** Places `x` before the first element that is not below it. */
  function Insert(x: string, s: seq<string>): (r: seq<string>)
    ensures multiset(r) == multiset(s) + multiset{x}
    ensures |r| == |s| + 1
  {
    if s == [] || !Less(s[0], x) then [x] + s
    else
      assert s == [s[0]] + s[1..];
      [s[0]] + Insert(x, s[1..])
  }

  /** `sorted(keys)` for keys without repetition (a dict's keys). */
  function Sorted(s: seq<string>): (r: seq<string>)
    ensures multiset(r) == multiset(s)
    ensures |r| == |s|
  {
    if s == [] then []
    else
      assert s == [s[0]] + s[1..];
      Insert(s[0], Sorted(s[1..]))
  }

  /** An element below every element of an ascending list can go in front of it. */
  lemma ConsAscending(h: string, t: seq<string>, r: seq<string>)
    requires StrictlyAscending(t) && forall j :: 0 <= j < |t| ==> Less(h, t[j])
    requires r == [h] + t
    ensures StrictlyAscending(r)
  {
    forall i, j | 0 <= i < j < |r| ensures Less(r[i], r[j]) {
      assert r[j] == t[j - 1];
    }
  }

  lemma {:induction false} InsertAscending(x: string, s: seq<string>)
    requires StrictlyAscending(s) && x !in s
    ensures StrictlyAscending(Insert(x, s))
  {
    if s == [] || !Less(s[0], x) {
      if s != [] {
        LessTotal(x, s[0]);
        forall j | 0 <= j < |s| ensures Less(x, s[j]) {
          if j > 0 { LessTransitive(x, s[0], s[j]); }
        }
      }
      ConsAscending(x, s, Insert(x, s));
    } else {
      var rest := Insert(x, s[1..]);
      InsertAscending(x, s[1..]);
      forall j | 0 <= j < |rest| ensures Less(s[0], rest[j]) {
        assert rest[j] in multiset(rest);
        if rest[j] != x {
          var k :| 1 <= k < |s| && s[k] == rest[j];
        }
      }
      ConsAscending(s[0], rest, Insert(x, s));
    }
  }

  lemma {:induction false} SortedAscending(s: seq<string>)
    requires Distinct(s)
    ensures StrictlyAscending(Sorted(s))
  {
    if s != [] {
      SortedAscending(s[1..]);
      var r := Sorted(s[1..]);
      assert s[0] !in multiset(r);
      InsertAscending(s[0], r);
    }
  }

  /** A strictly ascending listing of a duplicate-free sequence is unique: `sorted` has no choice to make. */
  lemma {:induction false} AscendingListingUnique(a: seq<string>, b: seq<string>)
    requires StrictlyAscending(a) && StrictlyAscending(b)
    requires multiset(a) == multiset(b)
    ensures a == b
  {
    assert |a| == |multiset(a)| == |multiset(b)| == |b|;
    if a != [] {
      if a[0] != b[0] {
        assert a[0] in multiset(b) && b[0] in multiset(a);
        var i :| 0 <= i < |b| && b[i] == a[0];
        var j :| 0 <= j < |a| && a[j] == b[0];
        assert Less(b[0], a[0]) && Less(a[0], b[0]);
        LessTransitive(a[0], b[0], a[0]);
        LessIrreflexive(a[0]);
      }
      calc {
        multiset(a[1..]);
        { assert a == [a[0]] + a[1..]; }
        multiset(a) - multiset{a[0]};
        { assert b == [b[0]] + b[1..]; }
        multiset(b[1..]);
      }
      AscendingListingUnique(a[1..], b[1..]);
    }
  }
}
