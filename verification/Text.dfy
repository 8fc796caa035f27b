/** Strings as Go's `strings` and `cmp` packages treat them: splitting and joining
    on one separator, lower case, and the byte-wise lexicographic order. */
module Text {

  function Join(parts: seq<string>, sep: char): string {
    if |parts| == 0 then ""
    else if |parts| == 1 then parts[0]
    else parts[0] + [sep] + Join(parts[1..], sep)
  }

  function Split(s: string, sep: char): (parts: seq<string>)
    ensures |parts| >= 1
    ensures forall i :: 0 <= i < |parts| ==> sep !in parts[i]
  {
    if s == "" then [""]
    else
      var rest := Split(s[1..], sep);
      if s[0] == sep then [""] + rest else [[s[0]] + rest[0]] + rest[1..]
  }

  lemma {:induction false} JoinSplit(s: string, sep: char)
    ensures Join(Split(s, sep), sep) == s
  {
    if s != "" {
      JoinSplit(s[1..], sep);
      var rest := Split(s[1..], sep);
      if s[0] == sep {
        assert ([""] + rest)[1..] == rest;
      } else {
        var head := [s[0]] + rest[0];
        assert ([head] + rest[1..])[1..] == rest[1..];
      }
    }
  }

  /** Splitting undoes joining exactly when no part holds the separator. */
  lemma {:induction false} SplitJoin(parts: seq<string>, sep: char)
    requires |parts| >= 1
    requires forall i :: 0 <= i < |parts| ==> sep !in parts[i]
    ensures Split(Join(parts, sep), sep) == parts
  {
    if |parts| == 1 {
      SplitOne(parts[0], sep);
    } else {
      SplitJoin(parts[1..], sep);
      SplitHead(parts[0], Join(parts[1..], sep), sep);
      assert parts[0] + [sep] + Join(parts[1..], sep) == parts[0] + ([sep] + Join(parts[1..], sep));
      assert [parts[0]] + parts[1..] == parts;
    }
  }

  lemma {:induction false} SplitOne(s: string, sep: char)
    requires sep !in s
    ensures Split(s, sep) == [s]
  {
    if s != "" {
      SplitOne(s[1..], sep);
      assert [s[0]] + s[1..] == s;
    }
  }

  lemma {:induction false} SplitHead(a: string, b: string, sep: char)
    requires sep !in a
    ensures Split(a + ([sep] + b), sep) == [a] + Split(b, sep)
  {
    var s := a + ([sep] + b);
    if a == "" {
      assert s[1..] == b;
    } else {
      SplitHead(a[1..], b, sep);
      assert s[1..] == a[1..] + ([sep] + b);
      assert [a[0]] + a[1..] == a;
    }
  }

  function LowerChar(c: char): char {
    if 'A' <= c <= 'Z' then ((c as int) + 32) as char else c
  }

  /** strings.ToLower on ASCII text. */
  function ToLower(s: string): (t: string)
    ensures |t| == |s|
    ensures forall i :: 0 <= i < |s| ==> t[i] == LowerChar(s[i])
  {
    seq(|s|, i requires 0 <= i < |s| => LowerChar(s[i]))
  }

  const CAPITALS := "ABCDEFGHIJKLMNOPQRSTUVWXYZ"

  const SMALLS := "abcdefghijklmnopqrstuvwxyz"

  lemma Alphabets(c: char)
    ensures |CAPITALS| == |SMALLS| == 26
    ensures forall k :: 0 <= k < 26 ==> CAPITALS[k] as int == 'A' as int + k && SMALLS[k] as int == 'a' as int + k
    ensures c in CAPITALS <==> 'A' <= c <= 'Z'
  {
    if 'A' <= c <= 'Z' {
      assert CAPITALS[c as int - 'A' as int] == c;
    }
  }

  /** Lower case has no capital letter, the k-th small letter for the k-th capital one, and
      every other character as it was. */
  lemma LowerIs(s: string, i: nat)
    requires i < |s|
    ensures ToLower(s)[i] !in CAPITALS
    ensures forall k :: 0 <= k < |CAPITALS| && s[i] == CAPITALS[k] ==> ToLower(s)[i] == SMALLS[k]
    ensures s[i] !in CAPITALS ==> ToLower(s)[i] == s[i]
  {
    Alphabets(s[i]);
    Alphabets(ToLower(s)[i]);
  }

  /** The k-th letter, small or capital. */
  predicate IsLetter(c: char, k: int) {
    0 <= k < |CAPITALS| && k < |SMALLS| && (c == CAPITALS[k] || c == SMALLS[k])
  }

  /** The same letter or the same character. */
  ghost predicate SameLetter(a: char, b: char) {
    a == b || exists k :: IsLetter(a, k) && IsLetter(b, k)
  }

  ghost predicate SameButCase(a: string, b: string) {
    |a| == |b| && forall i :: 0 <= i < |a| ==> SameLetter(a[i], b[i])
  }

  lemma LetterIff(c: char, k: int)
    requires 0 <= k < 26
    ensures IsLetter(c, k) <==> LowerChar(c) as int == 'a' as int + k
  {
    Alphabets(c);
  }

  lemma SameLetterIff(a: char, b: char)
    ensures SameLetter(a, b) <==> LowerChar(a) == LowerChar(b)
  {
    if k :| IsLetter(a, k) && IsLetter(b, k) {
      Alphabets(a);
      LetterIff(a, k);
      LetterIff(b, k);
    }
    if LowerChar(a) == LowerChar(b) && a != b {
      var k := LowerChar(a) as int - 'a' as int;
      LetterIff(a, k);
      LetterIff(b, k);
    }
  }

  /** Two texts have the same lower case if and only if they differ in ASCII case at most. */
  lemma SameLowerIff(a: string, b: string)
    ensures ToLower(a) == ToLower(b) <==> SameButCase(a, b)
  {
    if |a| == |b| {
      forall i | 0 <= i < |a| ensures SameLetter(a[i], b[i]) <==> ToLower(a)[i] == ToLower(b)[i] {
        SameLetterIff(a[i], b[i]);
      }
    }
  }

  /** cmp.Compare on strings. */
  function Compare(a: string, b: string): int {
    if a == "" then (if b == "" then 0 else -1)
    else if b == "" then 1
    else if a[0] < b[0] then -1
    else if b[0] < a[0] then 1
    else Compare(a[1..], b[1..])
  }

  lemma {:induction false} CompareZero(a: string, b: string)
    ensures Compare(a, b) == 0 <==> a == b
    ensures Compare(a, b) == -Compare(b, a)
    ensures -1 <= Compare(a, b) <= 1
  {
    if a != "" && b != "" {
      CompareZero(a[1..], b[1..]);
      assert a == [a[0]] + a[1..];
      assert b == [b[0]] + b[1..];
    }
  }

  lemma {:induction false} CompareTransitive(a: string, b: string, c: string)
    requires Compare(a, b) < 0 && Compare(b, c) < 0
    ensures Compare(a, c) < 0
  {
    if a != "" && b != "" && c != "" && a[0] == b[0] == c[0] {
      CompareTransitive(a[1..], b[1..], c[1..]);
    }
  }

  /** A proper prefix sorts before the string it is a prefix of. */
  lemma {:induction false} PrefixSortsFirst(a: string, b: string)
    requires a <= b && a != b
    ensures Compare(a, b) == -1
  {
    if a != "" {
      PrefixSortsFirst(a[1..], b[1..]);
    }
  }
}
