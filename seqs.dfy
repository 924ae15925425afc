/** Sequence and string helpers shared by the model: Python's `"".join`, `sep.join`,
    order-preserving de-duplication, `in` on strings and `str.replace`. */
module Seqs {

  lemma AppendAssoc<T>(a: seq<T>, b: seq<T>, c: seq<T>)
    ensures a + (b + c) == (a + b) + c
  {
  }

  predicate EndsWith<T(==)>(s: seq<T>, suffix: seq<T>)
  {
    |suffix| <= |s| && s[|s| - |suffix|..] == suffix
  }

  lemma EndsWithAppend<T>(a: seq<T>, b: seq<T>)
    ensures EndsWith(a + b, b)
  {
    assert (a + b)[|a|..] == b;
  }

  lemma PrefixOfAppend<T>(a: seq<T>, b: seq<T>)
    ensures a <= a + b
  {
    assert (a + b)[..|a|] == a;
  }

  /** The larger and the smaller of two integers. */
  function Max(a: int, b: int): int { if a >= b then a else b }
  function Min(a: int, b: int): int { if a <= b then a else b }

  /** `"".join(ss)`: the pieces one after the other. */
  function Concat<T>(ss: seq<seq<T>>): seq<T>
  {
    if ss == [] then [] else Concat(ss[..|ss| - 1]) + ss[|ss| - 1]
  }

  lemma {:induction false} ConcatAppend<T>(a: seq<seq<T>>, b: seq<seq<T>>)
    ensures Concat(a + b) == Concat(a) + Concat(b)
    decreases |b|
  {
    if b == [] {
      assert a + b == a;
    } else {
      var b', last := b[..|b| - 1], b[|b| - 1];
      assert (a + b)[..|a + b| - 1] == a + b';
      assert (a + b)[|a + b| - 1] == last;
      ConcatAppend(a, b');
      AppendAssoc(Concat(a), Concat(b'), last);
    }
  }

  lemma ConcatCons<T>(ss: seq<seq<T>>)
    requires ss != []
    ensures Concat(ss) == ss[0] + Concat(ss[1..])
  {
    assert ss == [ss[0]] + ss[1..];
    ConcatAppend([ss[0]], ss[1..]);
    assert Concat([ss[0]]) == Concat([ss[0]][..0]) + ss[0];
  }

  /** `sep.join(ss)`: the pieces with `sep` between neighbours. */
  function Join<T>(ss: seq<seq<T>>, sep: seq<T>): seq<T>
  {
    if |ss| == 0 then []
    else if |ss| == 1 then ss[0]
    else Join(ss[..|ss| - 1], sep) + sep + ss[|ss| - 1]
  }

  /** Joining pieces with `sep` and closing with one more `sep` is concatenating the
      pieces each followed by `sep`. */
  lemma {:induction false} JoinThenSep<T>(es: seq<seq<T>>, bs: seq<seq<T>>, sep: seq<T>)
    requires es != [] && |bs| == |es|
    requires forall i :: 0 <= i < |es| ==> bs[i] == es[i] + sep
    ensures Join(es, sep) + sep == Concat(bs)
    decreases |es|
  {
    var n := |es| - 1;
    if n == 0 {
      assert Concat(bs) == Concat(bs[..0]) + bs[0];
    } else {
      JoinThenSep(es[..n], bs[..n], sep);
      var head := Join(es[..n], sep);
      assert Join(es, sep) == head + sep + es[n];
      assert Concat(bs) == Concat(bs[..n]) + bs[n];
      AppendAssoc(head + sep, es[n], sep);
    }
  }

  predicate NoDuplicates<T(==)>(s: seq<T>)
  {
    forall i, j :: 0 <= i < j < |s| ==> s[i] != s[j]
  }

  lemma NoDuplicatesSnoc<T>(s: seq<T>, x: T)
    requires NoDuplicates(s) && x !in s
    ensures NoDuplicates(s + [x])
  {
  }

  /** The position of the first occurrence of `x` in `s`. */
  function IndexOf<T(==)>(s: seq<T>, x: T): (i: nat)
    requires x in s
    ensures i < |s| && s[i] == x && x !in s[..i]
  {
    if s[0] == x then 0 else 1 + IndexOf(s[1..], x)
  }

  lemma IndexOfPrefix<T>(s: seq<T>, n: nat, x: T)
    requires n <= |s| && x in s[..n]
    ensures IndexOf(s, x) == IndexOf(s[..n], x)
  {
    assert forall j :: 0 <= j < n ==> s[..n][j] == s[j];
  }

  /** The elements of `s` without repetitions, each at the place of its first
      occurrence: the loop `if x not in out: out.append(x)`. */
  function Distinct<T(==)>(s: seq<T>): (r: seq<T>)
    ensures forall i :: 0 <= i < |r| ==> r[i] in s
    ensures forall i :: 0 <= i < |s| ==> s[i] in r
    ensures NoDuplicates(r)
  {
    if s == [] then []
    else
      var d := Distinct(s[..|s| - 1]);
      if s[|s| - 1] in d then d else d + [s[|s| - 1]]
  }

  /** One more element: kept when new, dropped when already seen. */
  lemma DistinctAppendOne<T>(s: seq<T>, x: T)
    ensures Distinct(s + [x]) == if x in s then Distinct(s) else Distinct(s) + [x]
    ensures x in Distinct(s) <==> x in s
  {
    assert (s + [x])[..|s|] == s;
    if x in s {
      var i :| 0 <= i < |s| && s[i] == x;
    }
  }

  /** Elements come out in the order of their first occurrence in the input. */
  lemma {:induction false} DistinctKeepsFirstOccurrenceOrder<T>(s: seq<T>)
    ensures forall i, j :: 0 <= i < j < |Distinct(s)| ==>
              IndexOf(s, Distinct(s)[i]) < IndexOf(s, Distinct(s)[j])
  {
    if s != [] {
      var n := |s| - 1;
      var p := s[..n];
      var d := Distinct(p);
      DistinctKeepsFirstOccurrenceOrder(p);
      forall x | x in d ensures IndexOf(s, x) == IndexOf(p, x) {
        IndexOfPrefix(s, n, x);
      }
      if s[n] !in d {
        assert s[n] !in p;
        assert IndexOf(s, s[n]) == n by {
          assert forall j :: 0 <= j < n ==> p[j] == s[j];
        }
        assert Distinct(s) == d + [s[n]];
        forall i, j | 0 <= i < j < |Distinct(s)|
          ensures IndexOf(s, Distinct(s)[i]) < IndexOf(s, Distinct(s)[j])
        {
          if j == |d| {
            assert Distinct(s)[i] == d[i];
            assert Distinct(s)[i] in p;
          } else {
            assert Distinct(s)[i] == d[i] && Distinct(s)[j] == d[j];
          }
        }
      }
    }
  }

  /** Python's `pat in s` on strings. */
  predicate Contains<T(==)>(s: seq<T>, pat: seq<T>)
  {
    pat <= s || (s != [] && Contains(s[1..], pat))
  }

  /** Python's `s.replace(pat, rep)` for a non-empty `pat`: every occurrence,
      scanned left to right without overlap, becomes `rep`. */
  function ReplaceAll<T(==)>(s: seq<T>, pat: seq<T>, rep: seq<T>): (r: seq<T>)
    requires pat != []
    ensures !Contains(s, pat) ==> r == s
    ensures pat <= s ==> r == rep + ReplaceAll(s[|pat|..], pat, rep)
    decreases |s|
  {
    if |s| < |pat| then s
    else if pat <= s then rep + ReplaceAll(s[|pat|..], pat, rep)
    else [s[0]] + ReplaceAll(s[1..], pat, rep)
  }

  /** Text in which no occurrence starts is copied as it is, and the replacement goes
      on with what follows it. */
  lemma {:induction false} ReplaceAllSkipsPlain<T>(a: seq<T>, b: seq<T>, pat: seq<T>, rep: seq<T>)
    requires pat != []
    requires forall i :: 0 <= i < |a| ==> !(pat <= (a + b)[i..])
    ensures ReplaceAll(a + b, pat, rep) == a + ReplaceAll(b, pat, rep)
    decreases |a|
  {
    if a == [] {
      assert a + b == b;
    } else {
      var s := a + b;
      assert s[0..] == s;
      assert !(pat <= s);
      if |s| < |pat| {
        assert |b| < |pat|;
      } else {
        assert s[1..] == a[1..] + b;
        forall i | 0 <= i < |a[1..]|
          ensures !(pat <= (a[1..] + b)[i..])
        {
          assert (a[1..] + b)[i..] == s[i + 1..];
        }
        ReplaceAllSkipsPlain(a[1..], b, pat, rep);
        AppendAssoc([s[0]], a[1..], ReplaceAll(b, pat, rep));
        assert [s[0]] + a[1..] == a;
      }
    }
  }

  /** Every occurrence is replaced: the first occurrence after a stretch of text without
      one becomes `rep`, and the rest is replaced in turn. */
  lemma ReplaceAllAt<T>(a: seq<T>, rest: seq<T>, pat: seq<T>, rep: seq<T>)
    requires pat != []
    requires forall i :: 0 <= i < |a| ==> !(pat <= (a + pat + rest)[i..])
    ensures ReplaceAll(a + pat + rest, pat, rep) == a + rep + ReplaceAll(rest, pat, rep)
  {
    AppendAssoc(a, pat, rest);
    ReplaceAllSkipsPlain(a, pat + rest, pat, rep);
    assert (pat + rest)[|pat|..] == rest;
    PrefixOfAppend(pat, rest);
    AppendAssoc(a, rep, ReplaceAll(rest, pat, rep));
  }

  /** Replacing the pattern by itself gives the text back. */
  lemma {:induction false} ReplaceAllSelf<T>(s: seq<T>, pat: seq<T>)
    requires pat != []
    ensures ReplaceAll(s, pat, pat) == s
    decreases |s|
  {
    if |s| >= |pat| {
      if pat <= s {
        ReplaceAllSelf(s[|pat|..], pat);
        assert s == s[..|pat|] + s[|pat|..];
      } else {
        ReplaceAllSelf(s[1..], pat);
        assert s == [s[0]] + s[1..];
      }
    }
  }
}
