/** Printing and matching of the strings the cache and the queries are keyed by. */
module Text {
  function Digit(d: nat): char
    requires d < 10
  {
    ('0' as int + d) as char
  }

  /** strconv.Itoa of a non-negative number: the canonical decimal numeral. */
  function Decimal(n: nat): (s: string)
    ensures |s| > 0
    ensures forall c | c in s :: '0' <= c <= '9'
  {
    if n < 10 then [Digit(n)] else Decimal(n / 10) + [Digit(n % 10)]
  }

  /** %d */
  function Signed(n: int): (s: string)
    ensures forall c | c in s :: c == '-' || '0' <= c <= '9'
  {
    if n < 0 then "-" + Decimal(-n) else Decimal(n)
  }

  function Value(s: string): int {
    if s == "" then 0 else Value(s[..|s| - 1]) * 10 + (s[|s| - 1] as int - '0' as int)
  }

  lemma {:induction false} ValueOfDecimal(n: nat)
    ensures Value(Decimal(n)) == n
  {
    var s := Decimal(n);
    if n < 10 {
      assert s[..0] == "";
    } else {
      ValueOfDecimal(n / 10);
      assert s[..|s| - 1] == Decimal(n / 10);
    }
  }

  lemma DecimalInjective(a: nat, b: nat)
    requires Decimal(a) == Decimal(b)
    ensures a == b
  {
    ValueOfDecimal(a);
    ValueOfDecimal(b);
  }

  lemma SignFirst(n: int)
    ensures |Signed(n)| > 0 && (Signed(n)[0] == '-' <==> n < 0)
  {
    if n >= 0 {
      var first := Decimal(n)[0];
      assert first in Decimal(n);
    }
  }

  lemma SignedInjective(a: int, b: int)
    requires Signed(a) == Signed(b)
    ensures a == b
  {
    SignFirst(a);
    SignFirst(b);
    if a < 0 {
      assert Signed(a)[1..] == Decimal(-a) && Signed(b)[1..] == Decimal(-b);
      DecimalInjective(-a, -b);
    } else {
      DecimalInjective(a, b);
    }
  }

  lemma FirstSeparator(a: string, b: string, sep: char)
    requires sep !in a
    ensures (a + [sep] + b)[|a|] == sep
    ensures forall i | 0 <= i < |a| :: (a + [sep] + b)[i] != sep
  {
  }

  /** A text up to the first separator is determined. */
  lemma SplitUnique(a: string, b: string, c: string, d: string, sep: char)
    requires a + [sep] + b == c + [sep] + d
    requires sep !in a && sep !in c
    ensures a == c && b == d
  {
    var text := a + [sep] + b;
    assert text == c + [sep] + d;
    FirstSeparator(a, b, sep);
    FirstSeparator(c, d, sep);
    assert text[|a|] == sep && text[|c|] == sep;
    assert forall i | 0 <= i < |a| :: text[i] != sep;
    assert forall i | 0 <= i < |c| :: text[i] != sep;
    assert |a| == |c|;
    assert a == text[..|a|] && c == text[..|c|];
    assert b == text[|a| + 1..] && d == text[|c| + 1..];
  }

  /** A SCAN pattern: `*` stands for any text, `?` for one character. */
  predicate Glob(pattern: string, key: string)
    decreases |pattern| + |key|
  {
    if pattern == "" then key == ""
    else if pattern[0] == '*' then Glob(pattern[1..], key) || (key != "" && Glob(pattern, key[1..]))
    else key != "" && (pattern[0] == '?' || pattern[0] == key[0]) && Glob(pattern[1..], key[1..])
  }

  predicate Literal(s: string) { '*' !in s && '?' !in s && '[' !in s && '\\' !in s }

  lemma {:induction false} StarMatchesAll(key: string)
    ensures Glob("*", key)
    decreases |key|
  {
    if key == "" {
      assert "*"[1..] == "" && Glob("", key);
    } else {
      StarMatchesAll(key[1..]);
    }
  }

  /** prefix* matches exactly the keys that begin with the prefix. */
  lemma {:induction false} PrefixPattern(prefix: string, key: string)
    requires Literal(prefix)
    ensures Glob(prefix + "*", key) <==> prefix <= key
    decreases |prefix|
  {
    if prefix == "" {
      assert prefix + "*" == "*";
      StarMatchesAll(key);
    } else {
      var first := prefix[0];
      assert first in prefix;
      assert (prefix + "*")[1..] == prefix[1..] + "*" && (prefix + "*")[0] == first;
      if key != "" {
        PrefixPattern(prefix[1..], key[1..]);
        if first == key[0] {
          assert prefix <= key <==> prefix[1..] <= key[1..] by {
            assert prefix == [first] + prefix[1..] && key == [first] + key[1..];
          }
        }
      }
    }
  }
}
