/** String operations as JavaScript performs them, on `string` = `seq<char>`.
    Only the behaviour the HL7 code relies on is modelled: `split` and `join`
    with a one-character separator, `toUpperCase` on ASCII letters,
    `startsWith`, `replace(/[^0-9]/g, '')` and `substring`. */
module Text {

  datatype Option<+T> = None | Some(value: T)

  /** `s.split(sep)`: never empty; the empty string splits into `[""]`. */
  function Split(s: string, sep: char): (r: seq<string>)
    ensures |r| >= 1
    ensures forall i :: 0 <= i < |r| ==> sep !in r[i]
    decreases |s|
  {
    if s == [] then [""]
    else
      var rest := Split(s[1..], sep);
      if s[0] == sep then [""] + rest else [[s[0]] + rest[0]] + rest[1..]
  }

  /** `parts.join(sep)`: the parts in order, one separator between neighbours. */
  function Join(parts: seq<string>, sep: char): (r: string)
    ensures |parts| == 0 ==> r == ""
    ensures |parts| >= 1 ==> |r| >= |parts[0]| && r[..|parts[0]|] == parts[0]
    ensures |parts| >= 2 ==> |r| > |parts[0]| && r[|parts[0]|] == sep
  {
    if |parts| == 0 then ""
    else if |parts| == 1 then parts[0]
    else parts[0] + [sep] + Join(parts[1..], sep)
  }

  lemma {:induction false} SplitNoSeparator(a: string, sep: char)
    requires sep !in a
    ensures Split(a, sep) == [a]
  {
    if a != [] {
      SplitNoSeparator(a[1..], sep);
      assert [a[0]] + a[1..] == a;
    }
  }

  /** A separator after a separator-free prefix cuts off exactly that prefix. */
  lemma {:induction false} SplitCons(a: string, b: string, sep: char)
    requires sep !in a
    ensures Split(a + [sep] + b, sep) == [a] + Split(b, sep)
  {
    if a == [] {
      assert a + [sep] + b == [sep] + b;
      assert ([sep] + b)[1..] == b;
    } else {
      SplitCons(a[1..], b, sep);
      assert (a + [sep] + b)[1..] == a[1..] + [sep] + b;
      assert [a[0]] + a[1..] == a;
    }
  }

  /** Splitting undoes joining when no part contains the separator. */
  lemma {:induction false} SplitJoin(parts: seq<string>, sep: char)
    requires |parts| >= 1
    requires forall i :: 0 <= i < |parts| ==> sep !in parts[i]
    ensures Split(Join(parts, sep), sep) == parts
  {
    if |parts| == 1 {
      SplitNoSeparator(parts[0], sep);
    } else {
      SplitJoin(parts[1..], sep);
      SplitCons(parts[0], Join(parts[1..], sep), sep);
      assert [parts[0]] + parts[1..] == parts;
    }
  }

  /** A character that is neither the separator nor in any part is not in the join. */
  lemma {:induction false} JoinAvoids(parts: seq<string>, sep: char, c: char)
    requires c != sep
    requires forall i :: 0 <= i < |parts| ==> c !in parts[i]
    ensures c !in Join(parts, sep)
  {
    if |parts| > 1 {
      JoinAvoids(parts[1..], sep, c);
    }
  }

  /** The first piece of a join is split off intact, whatever the later parts hold. */
  lemma {:induction false} SplitJoinHead(parts: seq<string>, sep: char)
    requires |parts| >= 1 && sep !in parts[0]
    ensures Split(Join(parts, sep), sep)[0] == parts[0]
  {
    if |parts| == 1 {
      SplitNoSeparator(parts[0], sep);
    } else {
      SplitCons(parts[0], Join(parts[1..], sep), sep);
    }
  }

  /** A join of three or more parts opens with the first two parts, each followed by the separator. */
  lemma {:induction false} JoinOpening(parts: seq<string>, sep: char)
    requires |parts| >= 3
    ensures var o := parts[0] + [sep] + parts[1] + [sep];
            |Join(parts, sep)| >= |o| && Join(parts, sep)[..|o|] == o
  {
    var tail := parts[1..];
    assert tail[0] == parts[1] && tail[1..] == parts[2..];
    assert Join(parts, sep) == parts[0] + [sep] + (parts[1] + [sep] + Join(parts[2..], sep));
  }

  /** A prefix of the first part is a prefix of the join. */
  lemma {:induction false} JoinKeepsPrefix(parts: seq<string>, sep: char, prefix: string)
    requires |parts| >= 1 && StartsWith(parts[0], prefix)
    ensures StartsWith(Join(parts, sep), prefix)
  {
    var r := Join(parts, sep);
    assert r[..|prefix|] == r[..|parts[0]|][..|prefix|];
  }

  /** Joining undoes splitting, for every string. */
  lemma {:induction false} JoinSplit(s: string, sep: char)
    ensures Join(Split(s, sep), sep) == s
    decreases |s|
  {
    if s != [] {
      JoinSplit(s[1..], sep);
      var rest := Split(s[1..], sep);
      if s[0] == sep {
        assert ([""] + rest)[1..] == rest;
        assert [s[0]] + s[1..] == s;
      } else {
        var r := [[s[0]] + rest[0]] + rest[1..];
        assert r[1..] == rest[1..];
        if |rest| == 1 {
          assert [s[0]] + s[1..] == s;
        } else {
          assert Join(rest, sep) == rest[0] + [sep] + Join(rest[1..], sep);
          assert [s[0]] + s[1..] == s;
        }
      }
    }
  }

  /** `String.prototype.toUpperCase`, ASCII letters only. */
  function UpperChar(c: char): (u: char)
    ensures !('a' <= u <= 'z')
    ensures 'a' <= c <= 'z' ==> 'A' <= u <= 'Z' && u as int - 'A' as int == c as int - 'a' as int
    ensures !('a' <= c <= 'z') ==> u == c
  {
    if 'a' <= c <= 'z' then (c as int - 32) as char else c
  }

  /** Upper-casing keeps the length, leaves no lower-case ASCII letter, and
      changes nothing but lower-case letters. */
  function Upper(s: string): (r: string)
    ensures |r| == |s|
    ensures forall i :: 0 <= i < |r| ==> !('a' <= r[i] <= 'z')
    ensures forall i :: 0 <= i < |s| && !('a' <= s[i] <= 'z') ==> r[i] == s[i]
    ensures forall i :: 0 <= i < |s| ==> r[i] == UpperChar(s[i])
  {
    seq(|s|, i requires 0 <= i < |s| => UpperChar(s[i]))
  }

  /** `s.startsWith(prefix)`: `s` is `prefix` followed by the rest of `s`. */
  predicate StartsWith(s: string, prefix: string): (b: bool)
    ensures b <==> |prefix| <= |s| && s == prefix + s[|prefix|..]
  {
    |prefix| <= |s| && s[..|prefix|] == prefix
  }

  predicate IsDigit(c: char)
  {
    '0' <= c <= '9'
  }

  /** `s.replace(/[^0-9]/g, '')`: the digit characters of `s`, in order. */
  function Digits(s: string): (r: string)
    ensures |r| <= |s|
    ensures forall i :: 0 <= i < |r| ==> IsDigit(r[i])
  {
    if s == [] then ""
    else
      var rest := Digits(s[1..]);
      if IsDigit(s[0]) then [s[0]] + rest else rest
  }

  /** No digit is dropped: each digit occurs in the result as often as in the input. */
  lemma {:induction false} DigitsKeepsEveryDigit(s: string, c: char)
    requires IsDigit(c)
    ensures multiset(Digits(s))[c] == multiset(s)[c]
  {
    if s != [] {
      DigitsKeepsEveryDigit(s[1..], c);
      assert s == [s[0]] + s[1..];
    }
  }

  lemma {:induction false} DigitsOfDigits(s: string)
    requires forall i :: 0 <= i < |s| ==> IsDigit(s[i])
    ensures Digits(s) == s
  {
    if s != [] {
      DigitsOfDigits(s[1..]);
      assert [s[0]] + s[1..] == s;
    }
  }

  lemma {:induction false} DigitsCons(c: char, s: string)
    ensures Digits([c] + s) == (if IsDigit(c) then [c] else []) + Digits(s)
  {
    assert ([c] + s)[1..] == s;
  }

  /** Stripping distributes over concatenation, so the relative order of digits is kept. */
  lemma {:induction false} DigitsConcat(a: string, b: string)
    ensures Digits(a + b) == Digits(a) + Digits(b)
  {
    if a == [] {
      assert a + b == b;
    } else {
      var c, t := a[0], a[1..];
      assert a == [c] + t;
      assert a + b == [c] + (t + b);
      DigitsCons(c, t + b);
      DigitsCons(c, t);
      DigitsConcat(t, b);
      var head := if IsDigit(c) then [c] else [];
      assert head + (Digits(t) + Digits(b)) == (head + Digits(t)) + Digits(b);
    }
  }

  function Clamp(i: int, n: nat): nat
  {
    if i < 0 then 0 else if i > n then n else i
  }

  /** `s.substring(start, end)`: both indices clamped to `[0, |s|]`, swapped when out of order. */
  function Substring(s: string, start: int, end: int): (r: string)
    ensures |r| <= |s|
    ensures 0 <= start <= end <= |s| ==> r == s[start..end]
    ensures 0 <= end <= start <= |s| ==> r == s[end..start]
    ensures start <= 0 && |s| <= end ==> r == s
    ensures end <= 0 ==> r == s[..Clamp(start, |s|)]
    ensures 0 <= start <= |s| <= end ==> r == s[start..]
    ensures |s| <= start && |s| <= end ==> r == ""
  {
    var a, b := Clamp(start, |s|), Clamp(end, |s|);
    if a <= b then s[a..b] else s[b..a]
  }

  function Min(a: int, b: int): int
  {
    if a <= b then a else b
  }
}
