/** The string functions of Go's standard library that the formats rely on. */
module Text {
  import opened Wrappers

  // ------------------------------------------------------------- split and join

  function Split(s: string, sep: char): (r: seq<string>)
    ensures |r| >= 1
    ensures forall t :: t in r ==> sep !in t
  {
    if s == [] then [""]
    else
      var r := Split(s[1..], sep);
      if s[0] == sep then [""] + r else [[s[0]] + r[0]] + r[1..]
  }

  function Join(list: seq<string>, sep: char): string {
    if list == [] then ""
    else if |list| == 1 then list[0]
    else list[0] + [sep] + Join(list[1..], sep)
  }

  /** Splitting undoes joining when the separator is in none of the parts. */
  lemma {:induction false} SplitJoin(list: seq<string>, sep: char)
    requires list != [] && forall t :: t in list ==> sep !in t
    ensures Split(Join(list, sep), sep) == list
  {
    if |list| == 1 {
      SplitOne(list[0], sep);
    } else {
      SplitPrefix(list[0], Join(list[1..], sep), sep);
      assert list[0] + [sep] + Join(list[1..], sep) == list[0] + ([sep] + Join(list[1..], sep));
      SplitJoin(list[1..], sep);
    }
  }

  lemma {:induction false} SplitOne(s: string, sep: char)
    requires sep !in s
    ensures Split(s, sep) == [s]
  {
    if s != [] {
      SplitOne(s[1..], sep);
      assert [s[0]] + s[1..] == s;
    }
  }

  lemma {:induction false} SplitPrefix(s: string, rest: string, sep: char)
    requires sep !in s
    ensures Split(s + ([sep] + rest), sep) == [s] + Split(rest, sep)
  {
    var whole := s + ([sep] + rest);
    if s == [] {
      assert whole[1..] == rest;
    } else {
      assert whole[1..] == s[1..] + ([sep] + rest);
      SplitPrefix(s[1..], rest, sep);
      assert whole[0] == s[0] && [s[0]] + s[1..] == s;
    }
  }

  /** The part before the first separator and, if there is one, all that follows it. */
  function Cut(s: string, sep: char): (string, Option<string>) {
    if s == [] then ("", None)
    else if s[0] == sep then ("", Some(s[1..]))
    else var (k, v) := Cut(s[1..], sep); ([s[0]] + k, v)
  }

  lemma {:induction false} CutAt(k: string, v: string, sep: char)
    requires sep !in k
    ensures Cut(k + ([sep] + v), sep) == (k, Some(v))
  {
    var whole := k + ([sep] + v);
    if k == [] {
      assert whole[1..] == v;
    } else {
      assert whole[1..] == k[1..] + ([sep] + v);
      CutAt(k[1..], v, sep);
      assert whole[0] == k[0] && [k[0]] + k[1..] == k;
    }
  }

  // ----------------------------------------------------------------------- trim

  function TrimLeft(s: string, p: char -> bool): (r: string)
    ensures r == [] || !p(r[0])
    ensures |r| <= |s|
  {
    if s != [] && p(s[0]) then TrimLeft(s[1..], p) else s
  }

  function TrimRight(s: string, p: char -> bool): (r: string)
    ensures r == [] || !p(r[|r| - 1])
    ensures |r| <= |s| && r == s[..|r|]
  {
    if s != [] && p(s[|s| - 1]) then TrimRight(s[..|s| - 1], p) else s
  }

  function Trim(s: string, p: char -> bool): string {
    TrimRight(TrimLeft(s, p), p)
  }

  predicate IsSpace(c: char) {
    c in " \t\n\r" || c == 11 as char || c == 12 as char || c == 0x85 as char || c == 0xA0 as char
  }

  function TrimSpace(s: string): string {
    Trim(s, IsSpace)
  }

  /** A string is blank when trimming leaves nothing. */
  predicate Blank(s: string) {
    TrimSpace(s) == ""
  }

  lemma TrimNothing(s: string, p: char -> bool)
    requires s == [] || (!p(s[0]) && !p(s[|s| - 1]))
    ensures Trim(s, p) == s
  {
  }

  lemma {:induction false} AllTrimmed(s: string, p: char -> bool)
    requires forall c :: c in s ==> p(c)
    ensures TrimLeft(s, p) == [] && Trim(s, p) == []
  {
    if s != [] {
      AllTrimmed(s[1..], p);
    }
  }

  lemma {:induction false} TrimLeftIsEnd(s: string, p: char -> bool)
    ensures TrimLeft(s, p) == s[|s| - |TrimLeft(s, p)|..]
  {
    if s != [] && p(s[0]) {
      TrimLeftIsEnd(s[1..], p);
    }
  }

  /** Only what is to be trimmed goes. */
  lemma {:induction false} TrimLeftDrops(s: string, p: char -> bool)
    ensures forall i :: 0 <= i < |s| - |TrimLeft(s, p)| ==> p(s[i])
  {
    if s != [] && p(s[0]) {
      TrimLeftDrops(s[1..], p);
      forall i | 0 <= i < |s| - |TrimLeft(s, p)| ensures p(s[i]) {
        assert i > 0 ==> s[1..][i - 1] == s[i];
      }
    }
  }

  lemma {:induction false} TrimRightDrops(s: string, p: char -> bool)
    ensures forall i :: |TrimRight(s, p)| <= i < |s| ==> p(s[i])
  {
    if s != [] && p(s[|s| - 1]) {
      TrimRightDrops(s[..|s| - 1], p);
      forall i | |TrimRight(s, p)| <= i < |s| ensures p(s[i]) {
        assert i < |s| - 1 ==> s[..|s| - 1][i] == s[i];
      }
    }
  }

  // -------------------------------------------------------------------- numbers

  /** Decimal digits without leading zeros. */
  function Itoa(n: nat): (r: string)
    ensures r != []
  {
    if n < 10 then ['0' + n as char] else Itoa(n / 10) + ['0' + (n % 10) as char]
  }

  function Atoi(s: string): int {
    if s == [] then 0 else Atoi(s[..|s| - 1]) * 10 + (s[|s| - 1] as int - '0' as int)
  }

  lemma {:induction false} AtoiItoa(n: nat)
    ensures Atoi(Itoa(n)) == n
  {
    if n < 10 {
      assert Itoa(n)[..0] == [];
    } else {
      AtoiItoa(n / 10);
      assert Itoa(n)[..|Itoa(n)| - 1] == Itoa(n / 10);
    }
  }

  /** Numbered names with the same prefix are told apart by their number. */
  lemma NumberedNamesDiffer(prefix: string, i: nat, j: nat)
    requires prefix + Itoa(i) == prefix + Itoa(j)
    ensures i == j
  {
    assert (prefix + Itoa(i))[|prefix|..] == Itoa(i) && (prefix + Itoa(j))[|prefix|..] == Itoa(j);
    AtoiItoa(i);
    AtoiItoa(j);
  }
}
