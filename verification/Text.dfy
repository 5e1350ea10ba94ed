/** Strings: letter case (ASCII), and sorting by code point. */
module Text {

  function LowerChar(c: char): char {
    if 'A' <= c <= 'Z' then c - 'A' + 'a' else c
  }

  function Lower(s: string): string {
    seq(|s|, i requires 0 <= i < |s| => LowerChar(s[i]))
  }

  function UpperChar(c: char): char {
    if 'a' <= c <= 'z' then c - 'a' + 'A' else c
  }

  function Upper(s: string): string {
    seq(|s|, i requires 0 <= i < |s| => UpperChar(s[i]))
  }

  /** Lower leaves no capital letter, changes nothing but capitals and forgets case. */
  lemma LowerFolds(s: string)
    ensures |Lower(s)| == |s| && Lower(Upper(s)) == Lower(s) && Upper(Lower(s)) == Upper(s)
    ensures forall i :: 0 <= i < |s| ==> !('A' <= Lower(s)[i] <= 'Z') && !('a' <= Upper(s)[i] <= 'z')
    ensures forall i :: 0 <= i < |s| && !('A' <= s[i] <= 'Z') ==> Lower(s)[i] == s[i]
    ensures forall i :: 0 <= i < |s| && !('a' <= s[i] <= 'z') ==> Upper(s)[i] == s[i]
  {
  }

  /** s comes no later than t in code point order. */
  predicate AtMost(s: string, t: string) {
    s == [] || (t != [] && (s[0] < t[0] || (s[0] == t[0] && AtMost(s[1..], t[1..]))))
  }

  /** A prefix comes first, and otherwise the first difference decides. */
  lemma {:induction false} AtMostIff(s: string, t: string)
    ensures AtMost(s, t) <==> s <= t || exists k :: DiffersFirst(s, t, k) && s[k] < t[k]
  {
    if s != [] && t != [] && s[0] == t[0] {
      AtMostIff(s[1..], t[1..]);
      assert s <= t <==> s[1..] <= t[1..];
      if k :| DiffersFirst(s, t, k) && s[k] < t[k] {
        assert DiffersFirst(s[1..], t[1..], k - 1);
      }
      if k :| DiffersFirst(s[1..], t[1..], k) && s[1..][k] < t[1..][k] {
        DiffersLater(s, t, k);
      }
    } else if s != [] && t != [] && s[0] < t[0] {
      assert DiffersFirst(s, t, 0);
    }
  }

  ghost predicate DiffersFirst(s: string, t: string, k: int) {
    0 <= k < |s| && k < |t| && s[k] != t[k] && forall i :: 0 <= i < k ==> s[i] == t[i]
  }

  lemma DiffersLater(s: string, t: string, k: nat)
    requires s != [] && t != [] && s[0] == t[0] && DiffersFirst(s[1..], t[1..], k)
    ensures DiffersFirst(s, t, k + 1)
  {
    assert forall i :: 1 <= i < k + 1 ==> s[i] == s[1..][i - 1] && t[i] == t[1..][i - 1];
  }

  lemma {:induction false} AtMostTotal(s: string, t: string)
    ensures AtMost(s, t) || AtMost(t, s)
  {
    if s != [] && t != [] && s[0] == t[0] {
      AtMostTotal(s[1..], t[1..]);
    }
  }

  lemma {:induction false} AtMostAntisymmetric(s: string, t: string)
    requires AtMost(s, t) && AtMost(t, s)
    ensures s == t
  {
    if s != [] {
      AtMostAntisymmetric(s[1..], t[1..]);
      assert s == [s[0]] + s[1..] && t == [t[0]] + t[1..];
    }
  }

  lemma {:induction false} AtMostTransitive(s: string, t: string, u: string)
    requires AtMost(s, t) && AtMost(t, u)
    ensures AtMost(s, u)
  {
    if s != [] && s[0] == t[0] == u[0] {
      AtMostTransitive(s[1..], t[1..], u[1..]);
    }
  }

  ghost predicate Sorted(ss: seq<string>) {
    forall i, j :: 0 <= i < j < |ss| ==> AtMost(ss[i], ss[j])
  }

  function Insert(x: string, ss: seq<string>): seq<string> {
    if ss == [] || AtMost(x, ss[0]) then [x] + ss else [ss[0]] + Insert(x, ss[1..])
  }

  function Sort(ss: seq<string>): seq<string> {
    if ss == [] then [] else Insert(ss[0], Sort(ss[1..]))
  }

  lemma {:induction false} InsertSorts(x: string, ss: seq<string>)
    requires Sorted(ss)
    ensures Sorted(Insert(x, ss)) && multiset(Insert(x, ss)) == multiset(ss) + multiset{x}
  {
    if ss == [] {
    } else if AtMost(x, ss[0]) {
      forall j | 0 <= j < |ss|
        ensures AtMost(x, ss[j])
      {
        if j > 0 { AtMostTransitive(x, ss[0], ss[j]); }
      }
      assert multiset([x] + ss) == multiset{x} + multiset(ss);
    } else {
      InsertSorts(x, ss[1..]);
      AtMostTotal(x, ss[0]);
      var rest := Insert(x, ss[1..]);
      assert ss == [ss[0]] + ss[1..];
      forall j | 0 <= j < |rest|
        ensures AtMost(ss[0], rest[j])
      {
        assert rest[j] in multiset(rest);
        assert rest[j] == x || rest[j] in ss[1..];
      }
      assert multiset([ss[0]] + rest) == multiset{ss[0]} + multiset(rest);
    }
  }

  lemma {:induction false} SortSorts(ss: seq<string>)
    ensures Sorted(Sort(ss)) && multiset(Sort(ss)) == multiset(ss)
  {
    if ss != [] {
      SortSorts(ss[1..]);
      InsertSorts(ss[0], Sort(ss[1..]));
      assert ss == [ss[0]] + ss[1..];
    }
  }

  lemma TailMultiset(ss: seq<string>)
    requires ss != []
    ensures multiset(ss[1..]) == multiset(ss) - multiset{ss[0]} && ss[0] in ss
  {
    assert ss == [ss[0]] + ss[1..];
  }

  lemma SameFirst(ss: seq<string>, ts: seq<string>)
    requires Sorted(ss) && Sorted(ts) && multiset(ss) == multiset(ts) && ss != [] && ts != []
    ensures ss[0] == ts[0]
  {
    assert ss[0] in multiset(ts) && ts[0] in multiset(ss);
    FirstIsLeast(ss, ts[0]);
    FirstIsLeast(ts, ss[0]);
    AtMostAntisymmetric(ss[0], ts[0]);
  }

  /** Sorted order is canonical: the multiset determines it. */
  lemma {:induction false} SortedUnique(ss: seq<string>, ts: seq<string>)
    requires Sorted(ss) && Sorted(ts) && multiset(ss) == multiset(ts)
    ensures ss == ts
  {
    assert |multiset(ss)| == |ss| && |multiset(ts)| == |ts|;
    if ss != [] {
      SameFirst(ss, ts);
      TailMultiset(ss);
      TailMultiset(ts);
      SortedUnique(ss[1..], ts[1..]);
    }
  }

  lemma FirstIsLeast(ss: seq<string>, x: string)
    requires ss != [] && Sorted(ss) && x in ss
    ensures AtMost(ss[0], x)
  {
    AtMostTotal(x, x);
    var i :| 0 <= i < |ss| && ss[i] == x;
  }

  lemma SortPermutes(ss: seq<string>, ts: seq<string>)
    ensures Sort(ss) == Sort(ts) <==> multiset(ss) == multiset(ts)
  {
    SortSorts(ss);
    SortSorts(ts);
    if multiset(ss) == multiset(ts) {
      SortedUnique(Sort(ss), Sort(ts));
    }
  }
}
