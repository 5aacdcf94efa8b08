/** Names of stored segments: fixed-width decimal numbers, whose alphabetical order is the order of
    the numbers, so sorting a directory listing restores the order of the segments. */
module SegmentNames {

  /** Segment numbers are 64-bit words. */
  const NUMBERS: nat := 0x1_0000_0000_0000_0000

  function Power(n: nat): nat {
    if n == 0 then 1 else 10 * Power(n - 1)
  }

  function Digit(d: nat): char
    requires d < 10
  {
    (('0' as int) + d) as char
  }

  /** The last `width` decimal digits of `n`, with leading zeros. */
  function Digits(n: nat, width: nat): (s: string)
    ensures |s| == width
  {
    if width == 0 then "" else Digits(n / 10, width - 1) + [Digit(n % 10)]
  }

  /** `{n:020}.bin` */
  function FileName(n: nat): string {
    Digits(n, 20) + ".bin"
  }

  /** Alphabetical order. */
  predicate Less(a: string, b: string) {
    b != [] && (a == [] || a[0] < b[0] || (a[0] == b[0] && Less(a[1..], b[1..])))
  }

  lemma {:induction false} LessLast(a: string, b: string, x: string, y: string)
    requires |a| == |b|
    ensures Less(a + x, b + y) <==> Less(a, b) || (a == b && Less(x, y))
  {
    if a == [] {
      assert a + x == x && b + y == y;
    } else {
      assert (a + x)[1..] == a[1..] + x && (b + y)[1..] == b[1..] + y;
      assert a == [a[0]] + a[1..] && b == [b[0]] + b[1..];
      LessLast(a[1..], b[1..], x, y);
    }
  }

  /** Padded numbers compare alphabetically as they do numerically, and differ when they do. */
  lemma {:induction false} DigitsOrder(m: nat, n: nat, width: nat)
    requires m < Power(width) && n < Power(width)
    ensures Less(Digits(m, width), Digits(n, width)) <==> m < n
    ensures Digits(m, width) == Digits(n, width) ==> m == n
  {
    if width > 0 {
      DigitsOrder(m / 10, n / 10, width - 1);
      var a, b := Digits(m / 10, width - 1), Digits(n / 10, width - 1);
      var x, y := [Digit(m % 10)], [Digit(n % 10)];
      LessLast(a, b, x, y);
      assert Less(x, y) <==> m % 10 < n % 10;
      if a + x == b + y {
        assert a == (a + x)[..width - 1] == (b + y)[..width - 1] == b;
        assert x[0] == (a + x)[width - 1] == (b + y)[width - 1] == y[0];
      }
    }
  }

  lemma TwentyDigitsSuffice()
    ensures NUMBERS <= Power(20)
  {
    assert Power(2) == 100;
    assert Power(4) == 10_000;
    assert Power(6) == 1_000_000;
    assert Power(8) == 100_000_000;
    assert Power(10) == 10_000_000_000;
    assert Power(12) == 1_000_000_000_000;
    assert Power(14) == 100_000_000_000_000;
    assert Power(16) == 10_000_000_000_000_000;
    assert Power(18) == 1_000_000_000_000_000_000;
  }

  lemma FileNameOrder(m: nat, n: nat)
    requires m < NUMBERS && n < NUMBERS
    ensures Less(FileName(m), FileName(n)) <==> m < n
    ensures FileName(m) == FileName(n) ==> m == n
  {
    TwentyDigitsSuffice();
    DigitsOrder(m, n, 20);
    LessLast(Digits(m, 20), Digits(n, 20), ".bin", ".bin");
    LessIsStrict(".bin");
    if FileName(m) == FileName(n) {
      assert Digits(m, 20) == FileName(m)[..20] == FileName(n)[..20] == Digits(n, 20);
    }
  }

  lemma {:induction false} LessIsStrict(a: string)
    ensures !Less(a, a)
  {
    if a != [] {
      LessIsStrict(a[1..]);
    }
  }

  lemma {:induction false} LessIsTransitive(a: string, b: string, c: string)
    requires Less(a, b) && Less(b, c)
    ensures Less(a, c)
  {
    if a != [] && a[0] == b[0] && b[0] == c[0] {
      LessIsTransitive(a[1..], b[1..], c[1..]);
    }
  }

  lemma {:induction false} LessIsTotal(a: string, b: string)
    ensures a == b || Less(a, b) || Less(b, a)
  {
    if a != [] && b != [] {
      LessIsTotal(a[1..], b[1..]);
      assert a == [a[0]] + a[1..] && b == [b[0]] + b[1..];
    }
  }

  // --- sorting a listing -----------------------------------------------------------------------

  datatype Entry<T> = Entry(name: string, data: T)

  ghost predicate Ordered<T>(s: seq<Entry<T>>) {
    forall i, j :: 0 <= i < j < |s| ==> Less(s[i].name, s[j].name)
  }

  function Insert<T>(e: Entry<T>, s: seq<Entry<T>>): seq<Entry<T>> {
    if s == [] || Less(e.name, s[0].name) then [e] + s else [s[0]] + Insert(e, s[1..])
  }

  function Sort<T>(s: seq<Entry<T>>): seq<Entry<T>> {
    if s == [] then [] else Insert(s[0], Sort(s[1..]))
  }

  ghost predicate DistinctNames<T>(s: seq<Entry<T>>) {
    forall i, j :: 0 <= i < j < |s| ==> s[i].name != s[j].name
  }

  lemma {:induction false} InsertKeepsOrder<T>(e: Entry<T>, s: seq<Entry<T>>)
    requires Ordered(s) && forall k :: 0 <= k < |s| ==> s[k].name != e.name
    ensures Ordered(Insert(e, s)) && multiset(Insert(e, s)) == multiset(s) + multiset{e}
  {
    if s == [] {
    } else if Less(e.name, s[0].name) {
      forall j | 0 < j < |s|
        ensures Less(e.name, s[j].name)
      {
        LessIsTransitive(e.name, s[0].name, s[j].name);
      }
    } else {
      LessIsTotal(e.name, s[0].name);
      InsertKeepsOrder(e, s[1..]);
      var t := Insert(e, s[1..]);
      assert s == [s[0]] + s[1..];
      forall j | 0 <= j < |t|
        ensures Less(s[0].name, t[j].name)
      {
        assert t[j] in multiset(t);
        assert t[j] in s[1..] || t[j] == e;
      }
    }
  }

  lemma {:induction false} SortOrders<T>(s: seq<Entry<T>>)
    requires DistinctNames(s)
    ensures Ordered(Sort(s)) && multiset(Sort(s)) == multiset(s)
  {
    if s != [] {
      SortOrders(s[1..]);
      var t := Sort(s[1..]);
      hide Ordered, Insert;
      forall k | 0 <= k < |t|
        ensures t[k].name != s[0].name
      {
        TailNamesDiffer(s, t[k], t);
      }
      InsertKeepsOrder(s[0], t);
      TailElements(s);
    }
  }

  lemma TailNamesDiffer<T>(s: seq<Entry<T>>, e: Entry<T>, t: seq<Entry<T>>)
    requires DistinctNames(s) && s != [] && multiset(t) == multiset(s[1..]) && e in t
    ensures e.name != s[0].name
  {
    assert e in multiset(t);
    var k :| 0 <= k < |s[1..]| && s[1..][k] == e;
    assert s[k + 1] == e;
  }

  /** The first of an ordered sequence is the least of its elements. */
  lemma HeadsAgree<T>(a: seq<Entry<T>>, b: seq<Entry<T>>)
    requires Ordered(a) && Ordered(b) && multiset(a) == multiset(b) && a != [] && b != []
    ensures a[0] == b[0]
  {
    assert a[0] in multiset(b) && b[0] in multiset(a);
    var j :| 0 <= j < |b| && b[j] == a[0];
    var i :| 0 <= i < |a| && a[i] == b[0];
    if j > 0 && i > 0 {
      LessIsTransitive(a[0].name, b[0].name, a[0].name);
      LessIsStrict(a[0].name);
    }
  }

  lemma TailElements<T>(s: seq<Entry<T>>)
    requires s != []
    ensures s == [s[0]] + s[1..] && multiset(s[1..]) == multiset(s) - multiset{s[0]}
  {
    assert s == [s[0]] + s[1..];
  }

  /** There is only one way to put distinct names in order. */
  lemma {:induction false} OrderIsUnique<T>(a: seq<Entry<T>>, b: seq<Entry<T>>)
    requires Ordered(a) && Ordered(b) && multiset(a) == multiset(b)
    ensures a == b
  {
    assert |a| == |multiset(a)| == |multiset(b)| == |b|;
    if a != [] {
      HeadsAgree(a, b);
      TailElements(a);
      TailElements(b);
      OrderIsUnique(a[1..], b[1..]);
    }
  }

  /** Sorting any listing of the files gives them back in order. */
  lemma SortRestores<T>(files: seq<Entry<T>>, listing: seq<Entry<T>>)
    requires Ordered(files) && multiset(listing) == multiset(files)
    ensures Sort(listing) == files
  {
    forall i, j | 0 <= i < j < |listing|
      ensures listing[i].name != listing[j].name
    {
      ListedOnce(files, listing, i, j);
    }
    SortOrders(listing);
    OrderIsUnique(Sort(listing), files);
  }

  lemma ListedOnce<T>(files: seq<Entry<T>>, listing: seq<Entry<T>>, i: nat, j: nat)
    requires Ordered(files) && multiset(listing) == multiset(files) && i < j < |listing|
    ensures listing[i].name != listing[j].name
  {
    var x, y := listing[i], listing[j];
    assert x in multiset(listing) && y in multiset(listing);
    var a :| 0 <= a < |files| && files[a] == x;
    var b :| 0 <= b < |files| && files[b] == y;
    LessIsStrict(x.name);
    if a == b {
      OccursTwice(listing, i, j);
      OccursOnce(files, a);
    }
  }

  lemma OccursTwice<X>(s: seq<X>, i: nat, j: nat)
    requires i < j < |s| && s[i] == s[j]
    ensures multiset(s)[s[i]] >= 2
  {
    assert s == s[..j] + [s[j]] + s[j + 1..];
    assert s[i] in s[..j];
  }

  lemma OccursOnce<T>(files: seq<Entry<T>>, a: nat)
    requires Ordered(files) && a < |files|
    ensures multiset(files)[files[a]] == 1
  {
    var x := files[a];
    assert files == files[..a] + [x] + files[a + 1..];
    LessIsStrict(x.name);
    assert x !in files[..a];
    assert x !in files[a + 1..];
  }
}
