// Decimal text, strconv.ParseInt and the byte-wise string order of sort.Strings.
module Text {
  import opened Common

  const INT64_LIMIT: nat := 0x8000_0000_0000_0000

  predicate IsDigit(c: char) {
    '0' <= c <= '9'
  }

  predicate AllDigits(s: string) {
    forall i :: 0 <= i < |s| ==> IsDigit(s[i])
  }

  function DigitChar(d: nat): char
    requires d < 10
  {
    ('0' as int + d) as char
  }

  function DigitValue(c: char): nat
    requires IsDigit(c)
  {
    c as int - '0' as int
  }

  // fmt.Sprintf("%d", n) for a non-negative n.
  function Decimal(n: nat): (s: string)
    ensures |s| > 0 && AllDigits(s)
  {
    if n < 10 then [DigitChar(n)] else Decimal(n / 10) + [DigitChar(n % 10)]
  }

  function DigitsValue(s: string): nat
    requires AllDigits(s)
  {
    if s == "" then 0 else 10 * DigitsValue(s[..|s| - 1]) + DigitValue(s[|s| - 1])
  }

  // strconv.ParseInt(s, 10, 64): optional sign, at least one digit, range checked.
  function ParseInt(s: string): Option<int> {
    if s == "" then None
    else
      var negative := s[0] == '-';
      var body := if s[0] == '-' || s[0] == '+' then s[1..] else s;
      if body == "" || !AllDigits(body) then None
      else
        var v: int := DigitsValue(body);
        if !negative && v >= INT64_LIMIT then None
        else if negative && v > INT64_LIMIT then None
        else Some(if negative then -v else v)
  }

  lemma {:induction false} DecimalValue(n: nat)
    ensures DigitsValue(Decimal(n)) == n
  {
    if n < 10 {
      assert Decimal(n)[..0] == "";
    } else {
      DecimalValue(n / 10);
      assert Decimal(n)[..|Decimal(n)| - 1] == Decimal(n / 10);
    }
  }

  lemma DecimalInjective(m: nat, n: nat)
    requires Decimal(m) == Decimal(n)
    ensures m == n
  {
    DecimalValue(m);
    DecimalValue(n);
  }

  // Printing an index and parsing it back is the identity on 64-bit indices.
  lemma ParseDecimal(n: nat)
    ensures ParseInt(Decimal(n)) == if n < INT64_LIMIT then Some(n as int) else None
  {
    DecimalValue(n);
    assert IsDigit(Decimal(n)[0]);
  }

  // A sign in front is read as one; 64-bit integers reach one further down than up.
  lemma ParseSigned(n: nat)
    ensures ParseInt("-" + Decimal(n)) == if n <= INT64_LIMIT then Some(0 - n) else None
    ensures ParseInt("+" + Decimal(n)) == ParseInt(Decimal(n))
  {
    ParseDecimal(n);
    DecimalValue(n);
    assert ("-" + Decimal(n))[1..] == Decimal(n) && ("+" + Decimal(n))[1..] == Decimal(n);
    assert IsDigit(Decimal(n)[0]);
  }

  // Nothing but digits after an optional sign is accepted, and at least one of them is needed.
  lemma ParsedIsDigits(s: string)
    ensures ParseInt(s).Some? ==> s != "" && IsDigit(s[|s| - 1]) && AllDigits(s[1..])
    ensures ParseInt(s).Some? ==> IsDigit(s[0]) || s[0] == '-' || s[0] == '+'
  {
  }

  // ---- sort.Strings ------------------------------------------------------

  predicate Less(a: string, b: string) {
    b != "" && (a == "" || a[0] < b[0] || (a[0] == b[0] && Less(a[1..], b[1..])))
  }

  // The first difference of a and b is at i, where a has the smaller byte.
  predicate SmallerAt(a: string, b: string, i: int) {
    0 <= i < |a| && i < |b| && (forall j :: 0 <= j < i ==> a[j] == b[j]) && a[i] < b[i]
  }

  predicate IsPrefix(a: string, b: string) {
    |a| <= |b| && forall j :: 0 <= j < |a| ==> a[j] == b[j]
  }

  lemma SmallerShift(a: string, b: string, i: int)
    requires a != "" && b != "" && a[0] == b[0] && i > 0
    ensures SmallerAt(a, b, i) <==> SmallerAt(a[1..], b[1..], i - 1)
  {
    if SmallerAt(a[1..], b[1..], i - 1) {
      assert forall j :: 0 < j < i ==> a[j] == a[1..][j - 1] && b[j] == b[1..][j - 1];
    }
  }

  lemma PrefixShift(a: string, b: string)
    requires a != "" && b != "" && a[0] == b[0]
    ensures IsPrefix(a, b) <==> IsPrefix(a[1..], b[1..])
  {
    if IsPrefix(a[1..], b[1..]) {
      assert forall j :: 0 < j < |a| ==> a[j] == a[1..][j - 1] && b[j] == b[1..][j - 1];
    }
  }

  // Bytewise order: a proper prefix, or smaller at the first difference.
  lemma {:induction false} LessIsBytewise(a: string, b: string)
    ensures Less(a, b) <==> (IsPrefix(a, b) && |a| < |b|) || exists i :: SmallerAt(a, b, i)
  {
    if a == "" || b == "" {
    } else if a[0] != b[0] {
      assert a[0] < b[0] ==> SmallerAt(a, b, 0);
    } else {
      LessIsBytewise(a[1..], b[1..]);
      PrefixShift(a, b);
      if i :| SmallerAt(a, b, i) {
        SmallerShift(a, b, i);
      }
      if i :| SmallerAt(a[1..], b[1..], i) {
        SmallerShift(a, b, i + 1);
      }
    }
  }

  ghost predicate StrictlySorted(s: seq<string>) {
    forall i, j :: 0 <= i < j < |s| ==> Less(s[i], s[j])
  }

  lemma {:induction false} LessTransitive(a: string, b: string, c: string)
    requires Less(a, b) && Less(b, c)
    ensures Less(a, c)
  {
    if a == "" || a[0] != b[0] || b[0] != c[0] {
    } else {
      LessTransitive(a[1..], b[1..], c[1..]);
    }
  }

  lemma {:induction false} LessIrreflexive(a: string)
    ensures !Less(a, a)
  {
    if a == "" {
    } else {
      LessIrreflexive(a[1..]);
    }
  }

  lemma {:induction false} LessTotal(a: string, b: string)
    requires a != b
    ensures Less(a, b) || Less(b, a)
  {
    if a == "" || b == "" || a[0] != b[0] {
    } else {
      assert a == [a[0]] + a[1..] && b == [b[0]] + b[1..];
      LessTotal(a[1..], b[1..]);
    }
  }

  // A strictly sorted sequence is determined by its set of elements.
  lemma {:induction false} SortedUnique(s: seq<string>, t: seq<string>)
    requires StrictlySorted(s) && StrictlySorted(t)
    requires forall k :: k in s <==> k in t
    ensures s == t
  {
    assert t != [] ==> t[0] in t;
    if s == [] {
    } else {
      assert s[0] in t;
      assert t[0] in s;
      FirstIsLeast(s);
      FirstIsLeast(t);
      if s[0] != t[0] {
        LessTransitive(s[0], t[0], s[0]);
        LessIrreflexive(s[0]);
        assert false;
      }
      forall k
        ensures k in s[1..] <==> k in t[1..]
      {
        TailMembers(s, k);
        TailMembers(t, k);
      }
      SortedUnique(s[1..], t[1..]);
      assert s == [s[0]] + s[1..] && t == [t[0]] + t[1..];
    }
  }

  lemma FirstIsLeast(s: seq<string>)
    requires StrictlySorted(s) && s != []
    ensures forall k :: k in s && k != s[0] ==> Less(s[0], k)
  {
  }

  lemma TailMembers(s: seq<string>, k: string)
    requires StrictlySorted(s) && s != []
    ensures k in s[1..] <==> k in s && k != s[0]
  {
    LessIrreflexive(s[0]);
    if k in s && k != s[0] {
      var i :| 0 <= i < |s| && s[i] == k;
      assert s[1..][i - 1] == k;
    }
    if k in s[1..] {
      var i :| 0 <= i < |s[1..]| && s[1..][i] == k;
      assert s[i + 1] == k && Less(s[0], s[i + 1]);
    }
  }

  // Where k belongs in a sorted sequence that does not hold it.
  method InsertSorted(s: seq<string>, k: string) returns (r: seq<string>)
    requires StrictlySorted(s) && k !in s
    ensures StrictlySorted(r)
    ensures forall x :: x in r <==> x == k || x in s
  {
    var i := 0;
    while i < |s| && Less(s[i], k)
      invariant 0 <= i <= |s|
      invariant forall j :: 0 <= j < i ==> Less(s[j], k)
    {
      i := i + 1;
    }
    forall j | i <= j < |s|
      ensures Less(k, s[j])
    {
      LessTotal(s[i], k);
      if i < j {
        LessTransitive(k, s[i], s[j]);
      }
    }
    r := s[..i] + [k] + s[i..];
    assert s == s[..i] + s[i..];
    forall a, b | 0 <= a < b < |r|
      ensures Less(r[a], r[b])
    {
      if a < i && i < b {
        LessTransitive(s[a], k, s[b - 1]);
      }
    }
  }

  // The keys of a map, gathered in map order and then sorted.
  method SortedKeys(keys: set<string>) returns (r: seq<string>)
    ensures StrictlySorted(r)
    ensures forall k :: k in r <==> k in keys
  {
    var todo := keys;
    r := [];
    while todo != {}
      invariant StrictlySorted(r)
      invariant todo <= keys
      invariant forall k :: k in r <==> k in keys && k !in todo
      decreases |todo|
    {
      var k :| k in todo;
      r := InsertSorted(r, k);
      todo := todo - {k};
    }
  }
}
