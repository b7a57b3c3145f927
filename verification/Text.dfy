/** The string operations the models build on: strings.Split and strings.Join on
    a one-character separator, strings.Trim and strings.TrimSpace. */
module Text {

  /** strings.Split(s, string(c)); never empty. */
  function Split(s: string, c: char): (r: seq<string>)
    ensures |r| >= 1
  {
    if s == "" then [""]
    else
      var r := Split(s[1..], c);
      if s[0] == c then [""] + r else [[s[0]] + r[0]] + r[1..]
  }

  /** strings.Join(xs, string(c)). */
  function Join(xs: seq<string>, c: char): string {
    if xs == [] then "" else if |xs| == 1 then xs[0] else xs[0] + [c] + Join(xs[1..], c)
  }

  /** How often c occurs. */
  function Count(s: string, c: char): nat {
    if s == "" then 0 else (if s[0] == c then 1 else 0) + Count(s[1..], c)
  }

  function TrimLeft(s: string, cut: char -> bool): string {
    if s != "" && cut(s[0]) then TrimLeft(s[1..], cut) else s
  }

  function TrimRight(s: string, cut: char -> bool): string {
    if s != "" && cut(s[|s| - 1]) then TrimRight(s[..|s| - 1], cut) else s
  }

  function Trim(s: string, cut: char -> bool): string {
    TrimRight(TrimLeft(s, cut), cut)
  }

  /** unicode.IsSpace. */
  predicate IsSpace(c: char) {
    || c == ' ' || '\t' <= c <= '\r' || c == '\U{0085}' || c == '\U{00A0}' || c == '\U{1680}'
    || '\U{2000}' <= c <= '\U{200A}' || c == '\U{2028}' || c == '\U{2029}' || c == '\U{202F}'
    || c == '\U{205F}' || c == '\U{3000}'
  }

  function TrimSpace(s: string): string { Trim(s, IsSpace) }

  /** strings.Trim(s, string(c)). */
  function TrimChar(s: string, c: char): string { Trim(s, (x: char) => x == c) }

  /** Trimmed names, empty ones left out. */
  function Cleaned(names: seq<string>): seq<string> {
    if names == [] then []
    else
      var rest, x := Cleaned(names[..|names| - 1]), TrimSpace(names[|names| - 1]);
      if x != "" then rest + [x] else rest
  }

  /** No cut character at either end. */
  predicate Tidy(s: string, cut: char -> bool) {
    s != "" ==> !cut(s[0]) && !cut(s[|s| - 1])
  }

  lemma {:induction false} TrimLeftEnds(s: string, cut: char -> bool)
    ensures var r := TrimLeft(s, cut);
            && |r| <= |s| && r == s[|s| - |r|..] && (r != "" ==> !cut(r[0]))
  {
    if s != "" && cut(s[0]) { TrimLeftEnds(s[1..], cut); }
  }

  lemma {:induction false} TrimRightEnds(s: string, cut: char -> bool)
    ensures var r := TrimRight(s, cut);
            && |r| <= |s| && r == s[..|r|] && (r != "" ==> !cut(r[|r| - 1]))
  {
    if s != "" && cut(s[|s| - 1]) { TrimRightEnds(s[..|s| - 1], cut); }
  }

  /** Trimming leaves tidy strings alone and makes all others tidy and shorter. */
  lemma TrimIsTidy(s: string, cut: char -> bool)
    ensures Tidy(Trim(s, cut), cut)
    ensures Trim(s, cut) == s <==> Tidy(s, cut)
    ensures Trim(Trim(s, cut), cut) == Trim(s, cut)
    ensures |Trim(s, cut)| <= |s|
  {
    var l := TrimLeft(s, cut);
    TrimLeftEnds(s, cut);
    TrimRightEnds(l, cut);
    var r := TrimRight(l, cut);
    if r != "" { assert r[0] == l[0]; }
    assert TrimLeft(r, cut) == r && TrimRight(r, cut) == r;
  }

  predicate AllCut(s: string, cut: char -> bool) {
    forall i :: 0 <= i < |s| ==> cut(s[i])
  }

  lemma {:induction false} TrimLeftDrops(l: string, s: string, cut: char -> bool)
    requires AllCut(l, cut)
    ensures TrimLeft(l + s, cut) == TrimLeft(s, cut)
  {
    if l == "" {
      assert l + s == s;
    } else {
      assert (l + s)[1..] == l[1..] + s;
      TrimLeftDrops(l[1..], s, cut);
    }
  }

  lemma {:induction false} TrimRightDrops(s: string, r: string, cut: char -> bool)
    requires AllCut(r, cut)
    ensures TrimRight(s + r, cut) == TrimRight(s, cut)
  {
    if r == "" {
      assert s + r == s;
    } else {
      var n := |r| - 1;
      assert (s + r)[..|s + r| - 1] == s + r[..n];
      TrimRightDrops(s, r[..n], cut);
    }
  }

  /** Trimming takes exactly the cut characters at either end. */
  lemma TrimIs(l: string, m: string, r: string, cut: char -> bool)
    requires AllCut(l, cut) && AllCut(r, cut) && Tidy(m, cut)
    ensures Trim(l + m + r, cut) == m
  {
    assert l + m + r == l + (m + r);
    TrimLeftDrops(l, m + r, cut);
    if m == "" {
      assert m + r == r + "";
      TrimLeftDrops(r, "", cut);
    } else {
      TrimRightDrops(m, r, cut);
    }
  }

  lemma {:induction false} SplitCount(s: string, c: char)
    ensures |Split(s, c)| == Count(s, c) + 1
  {
    if s != "" { SplitCount(s[1..], c); }
  }

  lemma {:induction false} CountAppend(s: string, t: string, c: char)
    ensures Count(s + t, c) == Count(s, c) + Count(t, c)
  {
    if s == "" {
      assert s + t == t;
    } else {
      assert (s + t)[1..] == s[1..] + t;
      CountAppend(s[1..], t, c);
    }
  }

  lemma {:induction false} CountIn(s: string, c: char)
    ensures c in s <==> Count(s, c) > 0
  {
    if s != "" { CountIn(s[1..], c); }
  }

  /** The separators within the parts themselves. */
  function Inner(xs: seq<string>, c: char): nat {
    if xs == [] then 0 else Count(xs[0], c) + Inner(xs[1..], c)
  }

  lemma {:induction false} JoinCount(xs: seq<string>, c: char)
    requires xs != []
    ensures Count(Join(xs, c), c) == |xs| - 1 + Inner(xs, c)
  {
    if |xs| > 1 {
      JoinCount(xs[1..], c);
      CountAppend(xs[0] + [c], Join(xs[1..], c), c);
      CountAppend(xs[0], [c], c);
    }
  }

  lemma {:induction false} InnerZero(xs: seq<string>, c: char)
    ensures Inner(xs, c) == 0 <==> forall i :: 0 <= i < |xs| ==> c !in xs[i]
  {
    if xs != [] {
      CountIn(xs[0], c);
      InnerZero(xs[1..], c);
      assert forall i :: 1 <= i < |xs| ==> xs[i] == xs[1..][i - 1];
    }
  }

  lemma {:induction false} SplitPlain(s: string, c: char)
    requires c !in s
    ensures Split(s, c) == [s]
  {
    if s != "" {
      SplitPlain(s[1..], c);
      assert [s[0]] + s[1..] == s;
    }
  }

  lemma {:induction false} SplitFirst(x: string, rest: string, c: char)
    requires c !in x
    ensures Split(x + [c] + rest, c) == [x] + Split(rest, c)
  {
    if x == "" {
      assert (x + [c] + rest)[1..] == rest;
    } else {
      assert (x + [c] + rest)[1..] == x[1..] + [c] + rest;
      SplitFirst(x[1..], rest, c);
      assert [x[0]] + x[1..] == x;
    }
  }

  lemma {:induction false} SplitJoinParts(xs: seq<string>, c: char)
    requires xs != [] && forall i :: 0 <= i < |xs| ==> c !in xs[i]
    ensures Split(Join(xs, c), c) == xs
  {
    if |xs| == 1 {
      SplitPlain(xs[0], c);
    } else {
      SplitFirst(xs[0], Join(xs[1..], c), c);
      SplitJoinParts(xs[1..], c);
    }
  }

  /** Splitting undoes joining exactly when no part holds the separator. */
  lemma SplitJoin(xs: seq<string>, c: char)
    requires xs != []
    ensures Split(Join(xs, c), c) == xs <==> forall i :: 0 <= i < |xs| ==> c !in xs[i]
  {
    if forall i :: 0 <= i < |xs| ==> c !in xs[i] {
      SplitJoinParts(xs, c);
    } else {
      InnerZero(xs, c);
      JoinCount(xs, c);
      SplitCount(Join(xs, c), c);
    }
  }

  lemma {:induction false} SplitParts(s: string, c: char)
    ensures forall i :: 0 <= i < |Split(s, c)| ==> c !in Split(s, c)[i]
  {
    if s != "" { SplitParts(s[1..], c); }
  }

  lemma JoinEnds(xs: seq<string>, c: char)
    requires xs != []
    ensures xs[0] != "" ==> Join(xs, c) != "" && Join(xs, c)[0] == xs[0][0]
    ensures |xs| > 1 && xs[0] == "" ==> Join(xs, c) != "" && Join(xs, c)[0] == c
  {
  }

  lemma {:induction false} JoinLast(xs: seq<string>, c: char)
    requires xs != []
    ensures var last, j := xs[|xs| - 1], Join(xs, c);
            && (last != "" ==> j != "" && j[|j| - 1] == last[|last| - 1])
            && (|xs| > 1 && last == "" ==> j != "" && j[|j| - 1] == c)
            && (|xs| > 1 ==> j != "")
  {
    if |xs| > 1 { JoinLast(xs[1..], c); }
  }

  /** Trimming c off a string takes occurrences of c with it. */
  lemma TrimLosesCount(s: string, c: char)
    requires TrimChar(s, c) != s
    ensures Count(TrimChar(s, c), c) < Count(s, c)
  {
    var cut := (x: char) => x == c;
    var l := TrimLeft(s, cut);
    TrimLeftEnds(s, cut);
    TrimRightEnds(l, cut);
    var r := TrimRight(l, cut);
    var k := |s| - |l|;
    assert s == s[..k] + l && l == l[..|r|] + l[|r|..];
    CountAppend(s[..k], l, c);
    CountAppend(r, l[|r|..], c);
    TrimLeftCut(s, c, k);
    TrimRightCut(l, c, |r|);
  }

  lemma {:induction false} TrimLeftCut(s: string, c: char, k: nat)
    requires k == |s| - |TrimLeft(s, (x: char) => x == c)|
    ensures k <= |s| && Count(s[..k], c) == k
  {
    var cut := (x: char) => x == c;
    TrimLeftEnds(s, cut);
    if s != "" && s[0] == c {
      TrimLeftEnds(s[1..], cut);
      assert s[..k][1..] == s[1..][..k - 1];
      TrimLeftCut(s[1..], c, k - 1);
    }
  }

  lemma {:induction false} TrimRightCut(s: string, c: char, k: nat)
    requires k == |TrimRight(s, (x: char) => x == c)|
    ensures k <= |s| && Count(s[k..], c) == |s| - k
  {
    var cut := (x: char) => x == c;
    TrimRightEnds(s, cut);
    if s != "" && s[|s| - 1] == c {
      var front := s[..|s| - 1];
      TrimRightEnds(front, cut);
      TrimRightCut(front, c, k);
      assert s[k..] == front[k..] + [c];
      CountAppend(front[k..], [c], c);
    }
  }

  /** A list stored as its joined, later trimmed and split text comes back exactly
      when no part holds the separator and, with several parts, neither end part
      is empty. */
  lemma TrimmedRoundTrip(xs: seq<string>, c: char)
    requires xs != []
    ensures Split(TrimChar(Join(xs, c), c), c) == xs <==>
            && (forall i :: 0 <= i < |xs| ==> c !in xs[i])
            && (|xs| > 1 ==> xs[0] != "" && xs[|xs| - 1] != "")
  {
    var j := Join(xs, c);
    var t := TrimChar(j, c);
    TrimIsTidy(j, (x: char) => x == c);
    SplitJoin(xs, c);
    SplitParts(t, c);
    SplitCount(t, c);
    InnerZero(xs, c);
    JoinCount(xs, c);
    if t != j { TrimLosesCount(j, c); }
    JoinEnds(xs, c);
    JoinLast(xs, c);
  }

  // ---- Lists of names ----------------------------------------------------

  /** Some name is this one, once trimmed. */
  predicate Present(names: seq<string>, k: string) {
    exists j :: 0 <= j < |names| && TrimSpace(names[j]) == k
  }

  predicate Distinct(names: seq<string>) {
    forall i, j :: 0 <= i < j < |names| ==> names[i] != names[j]
  }

  /** In the order in which they first come up among the first n names. */
  ghost predicate InOrder(names: seq<string>, n: nat, found: seq<string>)
    requires n <= |names|
  {
    forall i, j, q :: 0 <= i < j < |found| && 0 <= q < n && TrimSpace(names[q]) == found[j] ==>
      Present(names[..q], found[i])
  }

  lemma {:induction false} FirstOccurrence(names: seq<string>, k: string) returns (q: nat)
    requires Present(names, k)
    ensures q < |names| && TrimSpace(names[q]) == k && !Present(names[..q], k)
  {
    q :| 0 <= q < |names| && TrimSpace(names[q]) == k;
    if Present(names[..q], k) {
      var p := FirstOccurrence(names[..q], k);
      assert names[..q][..p] == names[..p];
      q := p;
    }
  }

  lemma PresentEarlier(names: seq<string>, p: nat, q: nat, k: string)
    requires p <= q <= |names| && Present(names[..p], k)
    ensures Present(names[..q], k)
  {
    var o :| 0 <= o < p && TrimSpace(names[..p][o]) == k;
    assert names[..q][o] == names[o];
  }

  lemma FirstFirst(names: seq<string>, a: seq<string>, b: seq<string>)
    requires a != [] && b != [] && a[0] in b && b[0] in a && Present(names, a[0])
    requires InOrder(names, |names|, a) && InOrder(names, |names|, b)
    ensures a[0] == b[0]
  {
    if a[0] != b[0] {
      var i :| 0 <= i < |a| && a[i] == b[0];
      var j :| 0 <= j < |b| && b[j] == a[0];
      var q := FirstOccurrence(names, a[0]);
      var p :| 0 <= p < q && TrimSpace(names[..q][p]) == b[0];
      PresentEarlier(names, p, q, a[0]);
      assert false;
    }
  }

  lemma {:induction false} SameNamesSameOrder(names: seq<string>, a: seq<string>, b: seq<string>)
    requires Distinct(a) && Distinct(b)
    requires (forall k :: k in a <==> k in b) && forall k :: k in a ==> Present(names, k)
    requires InOrder(names, |names|, a) && InOrder(names, |names|, b)
    ensures a == b
  {
    assert a != [] ==> a[0] in b;
    assert b != [] ==> b[0] in a;
    if a != [] {
      FirstFirst(names, a, b);
      forall k ensures k in a[1..] <==> k in b[1..] {
        if k in a[1..] { assert k in b && k != b[0]; }
        if k in b[1..] { assert k in a && k != a[0]; }
      }
      SameNamesSameOrder(names, a[1..], b[1..]);
    }
  }

  lemma PresentNext(names: seq<string>, next: string, k: string)
    ensures Present(names + [next], k) <==> Present(names, k) || TrimSpace(next) == k
  {
    if Present(names, k) {
      var j :| 0 <= j < |names| && TrimSpace(names[j]) == k;
      assert (names + [next])[j] == names[j];
    }
    if TrimSpace(next) == k { assert (names + [next])[|names|] == next; }
    if Present(names + [next], k) {
      var j :| 0 <= j < |names + [next]| && TrimSpace((names + [next])[j]) == k;
      assert j < |names| ==> names[j] == (names + [next])[j];
    }
  }

  /** The next name is left out or, if it has not come up before, added. */
  lemma OneMoreInOrder(names: seq<string>, n: nat, rest: seq<string>, found: seq<string>)
    requires n == |names| - 1 && InOrder(names, n, rest) && forall k :: k in rest ==> Present(names[..n], k)
    requires found == rest || (found == rest + [TrimSpace(names[n])] && !Present(names[..n], TrimSpace(names[n])))
    ensures InOrder(names, n + 1, found)
  {
    forall i, j, q | 0 <= i < j < |found| && 0 <= q < n + 1 && TrimSpace(names[q]) == found[j]
      ensures Present(names[..q], found[i])
    {
      assert found[i] == rest[i] && rest[i] in rest;
      if q < n {
        assert names[..n][q] == names[q];
        assert found[j] == rest[j];
      }
    }
  }

  lemma InOrderInFront(names: seq<string>, n: nat, found: seq<string>)
    requires n <= |names| && InOrder(names[..n], n, found)
    ensures InOrder(names, n, found)
  {
    forall i, j, q | 0 <= i < j < |found| && 0 <= q < n && TrimSpace(names[q]) == found[j]
      ensures Present(names[..q], found[i])
    {
      assert names[..n][q] == names[q] && names[..n][..q] == names[..q];
    }
  }

  /** Looking at one more name: what is wanted of it is added unless it has come up before. */
  lemma OneMoreName(names: seq<string>, rest: seq<string>, found: seq<string>, wanted: string -> bool)
    requires names != [] && InOrder(names[..|names| - 1], |names| - 1, rest)
    requires forall k :: k in rest <==> wanted(k) && Present(names[..|names| - 1], k)
    requires var x := TrimSpace(names[|names| - 1]); found == if wanted(x) && x !in rest then rest + [x] else rest
    ensures forall k :: k in found <==> wanted(k) && Present(names, k)
    ensures InOrder(names, |names|, found)
  {
    var n := |names| - 1;
    var front, x := names[..n], TrimSpace(names[n]);
    assert names == front + [names[n]];
    forall k ensures k in found <==> wanted(k) && Present(names, k) { PresentNext(front, names[n], k); }
    InOrderInFront(names, n, rest);
    OneMoreInOrder(names, n, rest, found);
  }

  /** How many names are left when trimmed. */
  function Visible(names: seq<string>): nat {
    if names == [] then 0
    else Visible(names[..|names| - 1]) + if TrimSpace(names[|names| - 1]) != "" then 1 else 0
  }

  /** Each name that is left stands, trimmed, behind those left before it, and there are no others. */
  lemma {:induction false} CleanedAt(names: seq<string>, i: nat)
    requires i < |names|
    ensures |Cleaned(names)| == Visible(names) && Visible(names[..i]) <= Visible(names)
    ensures TrimSpace(names[i]) != "" ==>
              Visible(names[..i]) < |Cleaned(names)| && Cleaned(names)[Visible(names[..i])] == TrimSpace(names[i])
  {
    var n := |names| - 1;
    if i < n {
      CleanedAt(names[..n], i);
      assert names[..n][..i] == names[..i];
    } else if n > 0 {
      CleanedAt(names[..n], 0);
    }
  }
}
