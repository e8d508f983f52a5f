/**
  Fresh names for saved strategies: the base name, or the base name with the
  first free number in full-width parentheses.
 */
module StrategyNames {
  const DEFAULT_NAME: string := "\U{81EA}\U{5B9A}\U{4E49}\U{7B56}\U{7565}"
  const OPEN_SUFFIX: string := "\U{FF08}"
  const CLOSE_SUFFIX: string := "\U{FF09}"

  // ----- decimal numerals

  function Digit(d: nat): char
    requires d < 10
  {
    "0123456789"[d]
  }

  function Decimal(n: nat): (r: string)
    ensures r != []
  {
    if n < 10 then [Digit(n)] else Decimal(n / 10) + [Digit(n % 10)]
  }

  // The number a numeral denotes.
  function NumeralValue(s: string): nat
    requires forall k :: 0 <= k < |s| ==> '0' <= s[k] <= '9'
  {
    if s == [] then 0 else 10 * NumeralValue(s[..|s| - 1]) + (s[|s| - 1] as int - '0' as int)
  }

  lemma {:induction false} NumeralRoundTrip(n: nat)
    ensures forall k :: 0 <= k < |Decimal(n)| ==> '0' <= Decimal(n)[k] <= '9'
    ensures NumeralValue(Decimal(n)) == n
    ensures n > 0 ==> Decimal(n)[0] != '0'
  {
    if n >= 10 {
      NumeralRoundTrip(n / 10);
      assert Decimal(n)[..|Decimal(n)| - 1] == Decimal(n / 10);
    } else {
      assert Decimal(n)[..0] == [];
    }
  }

  lemma DecimalIsInjective(m: nat, n: nat)
    requires Decimal(m) == Decimal(n)
    ensures m == n
  {
    NumeralRoundTrip(m);
    NumeralRoundTrip(n);
  }

  function Suffixed(base: string, index: nat): string {
    base + OPEN_SUFFIX + Decimal(index) + CLOSE_SUFFIX
  }

  // The number stands in full-width parentheses.
  lemma SuffixInFields(base: string, index: nat)
    ensures Suffixed(base, index) == base + "\U{FF08}" + Decimal(index) + "\U{FF09}"
  {
  }

  lemma SuffixesAreDistinct(base: string, i: nat, j: nat)
    ensures Suffixed(base, i) == Suffixed(base, j) ==> i == j
    ensures Suffixed(base, i) != base
  {
    assert |Suffixed(base, i)| == |base| + 2 + |Decimal(i)|;
    if Suffixed(base, i) == Suffixed(base, j) {
      assert |Suffixed(base, j)| == |base| + 2 + |Decimal(j)|;
      assert Decimal(i) == Suffixed(base, i)[|base| + 1..|base| + 1 + |Decimal(i)|];
      assert Decimal(j) == Suffixed(base, j)[|base| + 1..|base| + 1 + |Decimal(j)|];
      DecimalIsInjective(i, j);
    }
  }

  // ----- pigeonhole

  lemma {:induction false} ElementsAtMostLength(s: seq<string>)
    ensures |set x | x in s| <= |s|
  {
    if s != [] {
      var rest := s[..|s| - 1];
      ElementsAtMostLength(rest);
      assert (set x | x in s) == (set x | x in rest) + {s[|s| - 1]};
    }
  }

  ghost function Suffixes(base: string, n: nat): set<string> {
    if n == 0 then {base} else Suffixes(base, n - 1) + {Suffixed(base, n + 1)}
  }

  // The base and its first n suffixed names are n + 1 different names.
  lemma {:induction false} SuffixesCount(base: string, n: nat)
    ensures |Suffixes(base, n)| == n + 1
    ensures forall x :: x in Suffixes(base, n) <==> x == base || exists k :: 2 <= k < n + 2 && x == Suffixed(base, k)
  {
    hide Suffixed;
    if n > 0 {
      SuffixesCount(base, n - 1);
      forall k | 2 <= k < n + 1
        ensures Suffixed(base, k) != Suffixed(base, n + 1)
      {
        SuffixesAreDistinct(base, k, n + 1);
      }
      SuffixesAreDistinct(base, n + 1, n + 1);
    }
  }

  ghost predicate TakenBelow(base: string, existing: seq<string>, index: nat) {
    base in existing && forall k :: 2 <= k < index ==> Suffixed(base, k) in existing
  }

  lemma SearchIsBounded(base: string, existing: seq<string>, index: nat)
    requires 2 <= index && TakenBelow(base, existing, index)
    ensures index <= |existing| + 1
  {
    SuffixesCount(base, index - 2);
    var names := set x | x in existing;
    assert Suffixes(base, index - 2) <= names;
    SubsetIsSmaller(Suffixes(base, index - 2), names);
    ElementsAtMostLength(existing);
  }

  lemma {:induction false} SubsetIsSmaller(a: set<string>, b: set<string>)
    requires a <= b
    ensures |a| <= |b|
  {
    if a != {} {
      var x :| x in a;
      SubsetIsSmaller(a - {x}, b - {x});
    }
  }

  // The first free number from a start below which all are taken.
  function FirstFree(base: string, existing: seq<string>, index: nat): (r: nat)
    requires 2 <= index && TakenBelow(base, existing, index)
    ensures index <= r <= |existing| + 1
    ensures Suffixed(base, r) !in existing && TakenBelow(base, existing, r)
    decreases |existing| + 2 - index
  {
    SearchIsBounded(base, existing, index);
    if Suffixed(base, index) in existing then
      assert TakenBelow(base, existing, index + 1);
      SearchIsBounded(base, existing, index + 1);
      FirstFree(base, existing, index + 1)
    else index
  }

  // ----- the name of a new preset

  function TrimLeft(s: string, isSpace: char -> bool): string {
    if s != [] && isSpace(s[0]) then TrimLeft(s[1..], isSpace) else s
  }

  function TrimRight(s: string, isSpace: char -> bool): string {
    if s != [] && isSpace(s[|s| - 1]) then TrimRight(s[..|s| - 1], isSpace) else s
  }

  function NormalizedBase(name: string, isSpace: char -> bool): string {
    var trimmed := TrimRight(TrimLeft(name, isSpace), isSpace);
    if trimmed == [] then DEFAULT_NAME else trimmed
  }

  // The base of a name is the name without outer white space, or the default name
  // where nothing else is left.
  lemma NormalizedInFields(name: string, isSpace: char -> bool)
    ensures
      var base := NormalizedBase(name, isSpace);
      || (base == DEFAULT_NAME && forall k :: 0 <= k < |name| ==> isSpace(name[k]))
      || (exists a, b :: 0 <= a < b <= |name| && name[a..b] == base
                         && !isSpace(name[a]) && !isSpace(name[b - 1])
                         && (forall k :: 0 <= k < a || b <= k < |name| ==> isSpace(name[k])))
  {
    var a := TrimLeftAt(name, isSpace);
    var left := TrimLeft(name, isSpace);
    var b := TrimRightAt(left, isSpace);
    if b > 0 {
      forall k | 0 <= k < a || a + b <= k < |name| ensures isSpace(name[k]) {
        if k >= a {
          assert left[k - a] == name[k];
        }
      }
      assert b > 0 && !isSpace(left[b - 1]);
      assert name[a] == left[0] && name[a + b - 1] == left[b - 1];
      assert name[a..a + b] == left[..b] == NormalizedBase(name, isSpace);
    }
  }

  lemma {:induction false} TrimLeftAt(s: string, isSpace: char -> bool) returns (a: nat)
    ensures a <= |s| && TrimLeft(s, isSpace) == s[a..] && (forall k :: 0 <= k < a ==> isSpace(s[k]))
    ensures a < |s| ==> !isSpace(s[a])
  {
    a := 0;
    if s != [] && isSpace(s[0]) {
      a := TrimLeftAt(s[1..], isSpace);
      forall k | 0 <= k < a + 1 ensures isSpace(s[k]) {
        assert k > 0 ==> s[k] == s[1..][k - 1];
      }
      a := a + 1;
    }
  }

  lemma {:induction false} TrimRightAt(s: string, isSpace: char -> bool) returns (b: nat)
    ensures b <= |s| && TrimRight(s, isSpace) == s[..b] && (forall k :: b <= k < |s| ==> isSpace(s[k]))
    ensures b > 0 ==> !isSpace(s[b - 1])
  {
    b := |s|;
    if s != [] && isSpace(s[|s| - 1]) {
      b := TrimRightAt(s[..|s| - 1], isSpace);
    }
  }

  function UniqueName(base: string, existing: seq<string>): (r: string)
    ensures r !in existing
  {
    if base !in existing then base else Suffixed(base, FirstFree(base, existing, 2))
  }

  // The base itself if it is free, else the base with the least number from two on
  // that makes it free.
  lemma UniqueNameInFields(base: string, existing: seq<string>)
    ensures
      var r := UniqueName(base, existing);
      && (base !in existing ==> r == base)
      && (base in existing ==>
            exists i :: 2 <= i && r == Suffixed(base, i) && r !in existing
                        && forall k :: 2 <= k < i ==> Suffixed(base, k) in existing)
  {
    hide Suffixed;
    if base in existing {
      var i := FirstFree(base, existing, 2);
      assert TakenBelow(base, existing, i);
    }
  }

  // The search loop of the source. It stops within |existing| + 1 tries, returns
  // an unused name, and returns the first one.
  method UniqueSavedStrategyName(name: string, existing: seq<string>, isSpace: char -> bool)
    returns (r: string, tries: nat)
    ensures r == UniqueName(NormalizedBase(name, isSpace), existing)
    ensures r !in existing && tries <= |existing| + 1
    ensures
      var base := NormalizedBase(name, isSpace);
      r == base || exists i :: 2 <= i && r == Suffixed(base, i) && TakenBelow(base, existing, i)
  {
    var base := NormalizedBase(name, isSpace);
    tries := 1;
    if base !in existing {
      return base, tries;
    }
    var index := 2;
    SearchIsBounded(base, existing, index);
    tries := 2;
    while Suffixed(base, index) in existing
      invariant 2 <= index == tries <= |existing| + 1
      invariant TakenBelow(base, existing, index)
      invariant FirstFree(base, existing, index) == FirstFree(base, existing, 2)
      decreases |existing| + 2 - index
    {
      index := index + 1;
      SearchIsBounded(base, existing, index);
      tries := tries + 1;
    }
    return Suffixed(base, index), tries;
  }
}
