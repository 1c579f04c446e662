// Strings: blank and bounded texts, parts of a text, and the order of texts.
module Texts {

  // trim() leaves nothing.
  predicate Blank(s: string) {
    forall i :: 0 <= i < |s| ==> s[i] == ' ' || s[i] == '\t' || s[i] == '\n' || s[i] == '\r'
  }

  predicate TextOk(s: string, max: nat) {
    !Blank(s) && |s| <= max
  }

  predicate StandsAt(text: string, part: string, i: nat) {
    i + |part| <= |text| && text[i..i + |part|] == part
  }

  predicate Contains(text: string, part: string) {
    exists i :: 0 <= i <= |text| && StandsAt(text, part, i)
  }

  function Decimal(n: nat): (s: string)
    ensures |s| > 0
    ensures forall i :: 0 <= i < |s| ==> '0' <= s[i] <= '9'
  {
    if n < 10 then ['0' + n as char] else Decimal(n / 10) + ['0' + (n % 10) as char]
  }

  predicate TextAtMost(a: string, b: string)
    decreases |a|
  {
    a == [] || (b != [] && (a[0] < b[0] || (a[0] == b[0] && TextAtMost(a[1..], b[1..]))))
  }

  predicate TextLess(a: string, b: string) {
    a != b && TextAtMost(a, b)
  }

  lemma {:induction false} TextTotal(a: string, b: string)
    ensures TextAtMost(a, b) || TextAtMost(b, a)
    ensures TextAtMost(a, b) && TextAtMost(b, a) ==> a == b
    decreases |a|
  {
    if a != [] && b != [] && a[0] == b[0] {
      TextTotal(a[1..], b[1..]);
      assert a == [a[0]] + a[1..] && b == [b[0]] + b[1..];
    }
  }

  lemma {:induction false} TextTransitive(a: string, b: string, c: string)
    requires TextAtMost(a, b) && TextAtMost(b, c)
    ensures TextAtMost(a, c)
    decreases |a|
  {
    if a != [] && a[0] == b[0] && b[0] == c[0] {
      TextTransitive(a[1..], b[1..], c[1..]);
    }
  }

  // ----- lists of names in order

  lemma {:induction false} LessAfter(common: string, x: string, y: string)
    requires x != [] && y != [] && x[0] < y[0]
    ensures TextLess(common + x, common + y)
  {
    if common != [] {
      LessAfter(common[1..], x, y);
      assert (common + x)[1..] == common[1..] + x && (common + y)[1..] == common[1..] + y;
    } else {
      assert [] + x == x && [] + y == y;
    }
  }

  predicate NextIsGreater(names: seq<string>) {
    forall i :: 0 <= i < |names| - 1 ==> TextLess(names[i], names[i + 1])
  }

  lemma {:induction false} NamesAscend(names: seq<string>, i: nat, j: nat)
    requires NextIsGreater(names) && i < j < |names|
    ensures TextLess(names[i], names[j])
  {
    if i < j - 1 {
      NamesAscend(names, i, j - 1);
      TextTransitive(names[i], names[j - 1], names[j]);
      TextTotal(names[j - 1], names[j]);
    } else {
      assert TextLess(names[i], names[i + 1]);
    }
  }

  lemma RankedByName(names: seq<string>, i: nat, j: nat)
    requires NextIsGreater(names) && i < |names| && j < |names|
    ensures TextLess(names[i], names[j]) <==> i < j
  {
    if i < j {
      NamesAscend(names, i, j);
    } else if j < i {
      NamesAscend(names, j, i);
      TextTotal(names[i], names[j]);
    }
  }
}
