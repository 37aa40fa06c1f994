// The text of command-line options: how values are joined into one argument, and how a reader
// takes them apart again.
module OptionText {
  import opened Wrappers

  // ---- Cutting at a separator ----

  // What comes before the first c, or everything.
  function Before(text: string, c: char): string {
    if text == "" || text[0] == c then "" else [text[0]] + Before(text[1..], c)
  }

  // What comes behind the first c, or nothing.
  function After(text: string, c: char): (rest: string)
    ensures c in text ==> |rest| < |text|
  {
    if text == "" then "" else if text[0] == c then text[1..] else After(text[1..], c)
  }

  // A value that does not contain the separator is read back, and so is what follows it.
  lemma {:induction false} Joined(a: string, b: string, c: char)
    requires c !in a
    ensures Before(a + [c] + b, c) == a && After(a + [c] + b, c) == b
  {
    if a == "" {
      assert a + [c] + b == [c] + b;
    } else {
      Joined(a[1..], b, c);
      assert (a + [c] + b)[1..] == a[1..] + [c] + b;
    }
  }

  // The two parts and the separator are the whole text, and the first part does not contain it.
  lemma {:induction false} Rejoined(text: string, c: char)
    ensures c !in Before(text, c)
    ensures if c in text then Before(text, c) + [c] + After(text, c) == text else Before(text, c) == text
  {
    if text != "" && text[0] != c {
      Rejoined(text[1..], c);
      assert text == [text[0]] + text[1..];
    }
  }

  // Whatever follows, the cut before the first c stays where it is.
  lemma {:induction false} BeforeMore(a: string, b: string, c: char)
    ensures Before(a + [c] + b, c) == Before(a, c)
  {
    if a == "" {
      assert a + [c] + b == [c] + b;
    } else if a[0] != c {
      BeforeMore(a[1..], b, c);
      assert (a + [c] + b)[1..] == a[1..] + [c] + b;
    } else {
      assert (a + [c] + b)[0] == c;
    }
  }

  lemma {:induction false} PartsLack(text: string, c: char, x: char)
    requires x !in text
    ensures x !in Before(text, c) && x !in After(text, c)
  {
    if text != "" && text[0] != c {
      PartsLack(text[1..], c, x);
    }
  }

  function Fields(text: string, c: char): seq<string>
    decreases |text|
  {
    if c in text then [Before(text, c)] + Fields(After(text, c), c) else [text]
  }

  lemma {:induction false} FieldsLack(text: string, c: char, i: nat)
    requires i < |Fields(text, c)|
    ensures c !in Fields(text, c)[i]
    decreases |text|
  {
    if c in text {
      Rejoined(text, c);
      if i > 0 {
        FieldsLack(After(text, c), c, i - 1);
      }
    }
  }

  lemma FieldsJoined(a: string, b: string, c: char)
    requires c !in a
    ensures Fields(a + [c] + b, c) == [a] + Fields(b, c)
  {
    Joined(a, b, c);
    assert (a + [c] + b)[|a|] == c;
  }

  // ---- Numbers ----

  function Digit(n: nat): char
    requires n < 10
  {
    '0' + n as char
  }

  function Digits(n: nat): string {
    if n < 10 then [Digit(n)] else Digits(n / 10) + [Digit(n % 10)]
  }

  function Decimal(n: int): string {
    if n < 0 then "-" + Digits(-n) else Digits(n)
  }

  predicate IsDigit(c: char) {
    '0' <= c <= '9'
  }

  function ReadDigits(text: string): Option<nat> {
    if text == "" || !IsDigit(text[|text| - 1]) then None
    else
      var low := (text[|text| - 1] - '0') as nat;
      if |text| == 1 then Some(low)
      else
        var high := ReadDigits(text[..|text| - 1]);
        if high.None? then None else Some(10 * high.value + low)
  }

  function ReadInt(text: string): Option<int> {
    if text != "" && text[0] == '-' then
      var n := ReadDigits(text[1..]);
      if n.None? then None else Some(0 - n.value as int)
    else
      var n := ReadDigits(text);
      if n.None? then None else Some(n.value as int)
  }

  lemma {:induction false} DigitsRead(n: nat)
    ensures ReadDigits(Digits(n)) == Some(n)
    ensures forall c :: c in Digits(n) ==> IsDigit(c)
  {
    if n >= 10 {
      DigitsRead(n / 10);
      assert Digits(n)[..|Digits(n)| - 1] == Digits(n / 10);
    }
  }

  // A number is read back, and its text contains neither of the separators used beside it.
  lemma DecimalRead(n: int)
    ensures ReadInt(Decimal(n)) == Some(n)
    ensures ':' !in Decimal(n) && '=' !in Decimal(n)
  {
    DigitsRead(if n < 0 then -n else n);
    if n < 0 {
      assert Decimal(n)[1..] == Digits(-n);
    } else {
      assert Decimal(n)[0] in Digits(n);
    }
  }

  // ---- Sorting ----

  // The order of strings, by their characters.
  predicate Leq(a: string, b: string) {
    a == "" || (b != "" && (a[0] < b[0] || (a[0] == b[0] && Leq(a[1..], b[1..]))))
  }

  lemma {:induction false} LeqTotal(a: string, b: string)
    ensures Leq(a, b) || Leq(b, a)
    ensures Leq(a, b) && Leq(b, a) ==> a == b
  {
    if a != "" && b != "" && a[0] == b[0] {
      LeqTotal(a[1..], b[1..]);
      assert a == [a[0]] + a[1..] && b == [b[0]] + b[1..];
    }
  }

  lemma {:induction false} LeqTransitive(a: string, b: string, c: string)
    requires Leq(a, b) && Leq(b, c)
    ensures Leq(a, c)
  {
    if a != "" && b[0] == a[0] && c[0] == b[0] {
      LeqTransitive(a[1..], b[1..], c[1..]);
    }
  }

  ghost predicate IsLeast(s: set<string>, m: string) {
    m in s && forall x :: x in s ==> Leq(m, x)
  }

  ghost predicate IsGreatest(s: set<string>, m: string) {
    m in s && forall x :: x in s ==> Leq(x, m)
  }

  lemma {:induction false} Extremes(s: set<string>)
    requires s != {}
    ensures exists m :: IsLeast(s, m)
    ensures exists m :: IsGreatest(s, m)
  {
    var x :| x in s;
    var rest := s - {x};
    assert s == rest + {x};
    if rest == {} {
      LeqTotal(x, x);
      assert IsLeast(s, x) && IsGreatest(s, x);
    } else {
      Extremes(rest);
      var lo :| IsLeast(rest, lo);
      var hi :| IsGreatest(rest, hi);
      LeastWith(rest, x, lo);
      GreatestWith(rest, x, hi);
    }
  }

  lemma LeastWith(s: set<string>, x: string, lo: string)
    requires IsLeast(s, lo)
    ensures IsLeast(s + {x}, if Leq(x, lo) then x else lo)
  {
    LeqTotal(x, x);
    LeqTotal(x, lo);
    forall y | y in s && Leq(x, lo)
      ensures Leq(x, y)
    {
      LeqTransitive(x, lo, y);
    }
  }

  lemma GreatestWith(s: set<string>, x: string, hi: string)
    requires IsGreatest(s, hi)
    ensures IsGreatest(s + {x}, if Leq(hi, x) then x else hi)
  {
    LeqTotal(x, x);
    LeqTotal(x, hi);
    forall y | y in s && Leq(hi, x)
      ensures Leq(y, x)
    {
      LeqTransitive(y, hi, x);
    }
  }

  ghost function Least(s: set<string>): (m: string)
    requires s != {}
    ensures IsLeast(s, m)
  {
    Extremes(s);
    var m :| IsLeast(s, m);
    m
  }

  // The strings of a set in ascending order.
  ghost function Sorted(s: set<string>): seq<string> {
    if s == {} then [] else [Least(s)] + Sorted(s - {Least(s)})
  }

  lemma LeastUnique(s: set<string>, m: string)
    requires IsLeast(s, m)
    ensures m == Least(s)
  {
    LeqTotal(m, Least(s));
  }

  ghost predicate Ascending(keys: seq<string>) {
    forall i, j :: 0 <= i < j < |keys| ==> Leq(keys[i], keys[j])
  }

  lemma {:induction false} SortedIs(s: set<string>)
    ensures forall k :: k in Sorted(s) <==> k in s
    ensures Ascending(Sorted(s))
  {
    if s != {} {
      SortedIs(s - {Least(s)});
      assert s == {Least(s)} + (s - {Least(s)});
    }
  }

  method FindLeast(s: set<string>) returns (m: string)
    requires s != {}
    ensures m == Least(s)
  {
    m :| m in s;
    LeqTotal(m, m);
    var rest := s - {m};
    ghost var seen := {m};
    while rest != {}
      invariant rest <= s && seen == s - rest && IsLeast(seen, m)
      decreases rest
    {
      var x :| x in rest;
      LeastWith(seen, x, m);
      if Leq(x, m) {
        m := x;
      }
      rest, seen := rest - {x}, seen + {x};
    }
    assert seen == s;
    LeastUnique(s, m);
  }
}
