/** Text as the source compares and converts it: string order, the ASCII part of upper-casing,
    and `code or "USD"`. */
module Text {
  import opened Wrappers
  import OrderedSets

  function UpperChar(c: char): char {
    if 'a' <= c <= 'z' then c - 'a' + 'A' else c
  }

  function Upper(s: string): string {
    seq(|s|, i requires 0 <= i < |s| => UpperChar(s[i]))
  }

  function Currency(code: Option<string>): string {
    if code.None? || code.value == "" then "USD" else Upper(code.value)
  }

  /** Upper-casing keeps the length, capitalises the letters a to z and leaves every other character. */
  lemma UpperExactly(s: string, i: nat)
    requires i < |s|
    ensures |Upper(s)| == |s|
    ensures 'a' <= s[i] <= 'z' ==> Upper(s)[i] as int == s[i] as int - 32
    ensures !('a' <= s[i] <= 'z') ==> Upper(s)[i] == s[i]
  {
  }

  /** A missing or blank code is dollars. */
  lemma CurrencyExactly(code: string)
    ensures Currency(None) == "USD" && Currency(Some("")) == "USD"
    ensures code != "" ==> Currency(Some(code)) == Upper(code)
  {
  }

  // ---------- String order ----------

  /** Strings compare character by character. */
  predicate StringLe(a: string, b: string) {
    |a| == 0 || (|b| > 0 && (a[0] < b[0] || (a[0] == b[0] && StringLe(a[1..], b[1..]))))
  }

  function Alphabetical(): (string, string) -> bool {
    (a: string, b: string) => StringLe(a, b)
  }

  lemma {:induction false} StringLeTotal(a: string, b: string)
    ensures StringLe(a, b) || StringLe(b, a)
    ensures StringLe(a, b) && StringLe(b, a) ==> a == b
  {
    if |a| > 0 && |b| > 0 && a[0] == b[0] {
      StringLeTotal(a[1..], b[1..]);
      assert a == [a[0]] + a[1..] && b == [b[0]] + b[1..];
    }
  }

  lemma {:induction false} StringLeTransitive(a: string, b: string, c: string)
    requires StringLe(a, b) && StringLe(b, c)
    ensures StringLe(a, c)
  {
    if |a| > 0 && a[0] == b[0] == c[0] {
      StringLeTransitive(a[1..], b[1..], c[1..]);
    }
  }

  lemma AlphabeticalIsLinear()
    ensures OrderedSets.LinearOrder(Alphabetical())
  {
    var le := Alphabetical();
    forall a, b ensures le(a, b) || le(b, a) {
      StringLeTotal(a, b);
    }
    forall a, b, c | le(a, b) && le(b, c) ensures le(a, c) {
      StringLeTransitive(a, b, c);
    }
    forall a, b | le(a, b) && le(b, a) ensures a == b {
      StringLeTotal(a, b);
    }
  }
}
