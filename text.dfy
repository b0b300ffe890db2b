/** Character and string helpers shared by the server and the client model:
    ASCII case folding, substring search, JavaScript's `trim`, the shape of the
    `a.*b` alternatives of the keyword regexes, decimal rendering and joining. */
module Text {

  /** ASCII case folding: the only folding that matters for the all-ASCII
      keyword patterns (a case-insensitive JavaScript regex never folds a
      non-ASCII character onto an ASCII one). */
  function Lower(c: char): (r: char)
    ensures 'A' <= c <= 'Z' ==> r as int == c as int + 32
    ensures !('A' <= c <= 'Z') ==> r == c
    ensures !('A' <= r <= 'Z')
  {
    if 'A' <= c <= 'Z' then (c as int + 32) as char else c
  }

  /** `s.toLowerCase()` on the characters that matter here. */
  function LowerStr(s: string): string
  {
    if s == [] then [] else [Lower(s[0])] + LowerStr(s[1..])
  }

  /** Lowering works character by character and keeps the length. */
  lemma {:induction false} LowerStrSpec(s: string)
    ensures |LowerStr(s)| == |s|
    ensures forall i :: 0 <= i < |s| ==> LowerStr(s)[i] == Lower(s[i])
  {
    if s != [] {
      LowerStrSpec(s[1..]);
    }
  }

  /** `p` occurs in `s` starting at index `i`. */
  predicate OccursAt(s: string, p: string, i: int)
  {
    0 <= i && i + |p| <= |s| && s[i..i + |p|] == p
  }

  /** JavaScript's `s.includes(p)`. */
  predicate Contains(s: string, p: string)
  {
    exists i | 0 <= i <= |s| - |p| :: OccursAt(s, p, i)
  }

  lemma ContainsAt(s: string, p: string, i: int)
    requires OccursAt(s, p, i)
    ensures Contains(s, p)
  {
  }

  lemma ContainsEmpty(s: string)
    ensures Contains(s, [])
  {
    assert OccursAt(s, [], 0);
  }

  lemma {:induction false} ContainsPrefix(s: string, t: string, p: string)
    requires Contains(s, p)
    ensures Contains(s + t, p)
  {
    var i :| 0 <= i <= |s| - |p| && OccursAt(s, p, i);
    assert (s + t)[i..i + |p|] == s[i..i + |p|];
    assert OccursAt(s + t, p, i);
  }

  /** Line terminators of ECMAScript: the characters `.` does not match. */
  predicate IsLineTerminator(c: char)
  {
    c == '\n' || c == '\r' || c == '\U{2028}' || c == '\U{2029}'
  }

  /** The regex `a.*b` (without flags) matches somewhere in `s`: an occurrence
      of `a`, then a stretch free of line terminators, then an occurrence of `b`. */
  predicate ThenOnSameLine(s: string, a: string, b: string)
  {
    exists i, j | 0 <= i <= j <= |s| ::
      OccursAt(s, a, i) && i + |a| <= j && OccursAt(s, b, j) &&
      forall k | i + |a| <= k < j :: !IsLineTerminator(s[k])
  }

  /** The WhiteSpace and LineTerminator characters stripped by `String.prototype.trim`. */
  predicate IsJsSpace(c: char)
  {
    c == '\t' || c == '\n' || c == '\U{000B}' || c == '\U{000C}' || c == '\r' || c == ' ' ||
    c == '\U{00A0}' || c == '\U{1680}' || ('\U{2000}' <= c <= '\U{200A}') ||
    c == '\U{2028}' || c == '\U{2029}' || c == '\U{202F}' || c == '\U{205F}' || c == '\U{3000}' ||
    c == '\U{FEFF}'
  }

  /** `s` without its leading space characters. */
  function TrimStart(s: string): string
  {
    if s != [] && IsJsSpace(s[0]) then TrimStart(s[1..]) else s
  }

  /** What `TrimStart` removes is a prefix of space characters, and what it
      keeps does not start with one. */
  lemma {:induction false} TrimStartSpec(s: string)
    ensures var r := TrimStart(s);
      |r| <= |s| && r == s[|s| - |r|..] &&
      (r == [] || !IsJsSpace(r[0])) &&
      forall k :: 0 <= k < |s| - |r| ==> IsJsSpace(s[k])
  {
    if s != [] && IsJsSpace(s[0]) {
      var r := TrimStart(s[1..]);
      TrimStartSpec(s[1..]);
      assert TrimStart(s) == r;
      assert s[1..][|s| - 1 - |r|..] == s[|s| - |r|..];
    }
  }

  /** `s` without its trailing space characters. */
  function TrimEnd(s: string): string
  {
    if s != [] && IsJsSpace(s[|s| - 1]) then TrimEnd(s[..|s| - 1]) else s
  }

  /** What `TrimEnd` removes is a suffix of space characters, and what it
      keeps does not end with one. */
  lemma {:induction false} TrimEndSpec(s: string)
    ensures var r := TrimEnd(s);
      |r| <= |s| && r == s[..|r|] &&
      (r == [] || !IsJsSpace(r[|r| - 1])) &&
      forall k :: |r| <= k < |s| ==> IsJsSpace(s[k])
  {
    if s != [] && IsJsSpace(s[|s| - 1]) {
      var r := TrimEnd(s[..|s| - 1]);
      TrimEndSpec(s[..|s| - 1]);
      assert TrimEnd(s) == r;
      assert s[..|s| - 1][..|r|] == s[..|r|];
    }
  }

  /** `r` is the infix of `s` starting at `i`, with only space characters around it. */
  ghost predicate InfixBetweenSpaces(s: string, r: string, i: int)
  {
    0 <= i <= |s| - |r| && r == s[i..i + |r|] &&
    (forall k :: 0 <= k < i ==> IsJsSpace(s[k])) &&
    (forall k :: i + |r| <= k < |s| ==> IsJsSpace(s[k]))
  }

  /** `s.trim()`: the space characters at both ends removed. */
  function Trim(s: string): string
  {
    TrimEnd(TrimStart(s))
  }

  /** What `trim` keeps is an infix of `s` with only space characters around
      it, and it neither starts nor ends with one. */
  lemma TrimSpec(s: string)
    ensures exists i :: InfixBetweenSpaces(s, Trim(s), i)
    ensures var r := Trim(s); r == [] || (!IsJsSpace(r[0]) && !IsJsSpace(r[|r| - 1]))
  {
    var t := TrimStart(s);
    var r := TrimEnd(t);
    TrimStartSpec(s);
    TrimEndSpec(t);
    assert Trim(s) == r;
    assert InfixBetweenSpaces(s, r, |s| - |t|);
  }

  predicate IsDigit(c: char)
  {
    '0' <= c <= '9'
  }

  function DigitChar(d: nat): (c: char)
    requires d < 10
    ensures IsDigit(c) && c as int - '0' as int == d
  {
    ('0' as int + d) as char
  }

  /** `${n}` for a non-negative integer: its decimal digits, no sign, no leading zero. */
  function Decimal(n: nat): (r: string)
    ensures r != []
    ensures forall k :: 0 <= k < |r| ==> IsDigit(r[k])
    decreases n
  {
    if n < 10 then [DigitChar(n)] else Decimal(n / 10) + [DigitChar(n % 10)]
  }

  /** The value of a string of decimal digits. */
  function DigitsValue(s: string): int
    requires forall k :: 0 <= k < |s| ==> IsDigit(s[k])
  {
    if s == [] then 0 else 10 * DigitsValue(s[..|s| - 1]) + (s[|s| - 1] as int - '0' as int)
  }

  /** Reading the decimal rendering back gives the number: rendering is injective. */
  lemma {:induction false} DecimalValue(n: nat)
    ensures DigitsValue(Decimal(n)) == n
    decreases n
  {
    if n >= 10 {
      DecimalValue(n / 10);
      var d := Decimal(n / 10) + [DigitChar(n % 10)];
      assert d[..|d| - 1] == Decimal(n / 10);
    }
  }

  lemma DecimalInjective(m: nat, n: nat)
    requires Decimal(m) == Decimal(n)
    ensures m == n
  {
    DecimalValue(m);
    DecimalValue(n);
  }

  /** `xs.join(sep)`. */
  function Join(xs: seq<string>, sep: string): (r: string)
    ensures xs == [] ==> r == []
    ensures |xs| == 1 ==> r == xs[0]
  {
    if xs == [] then [] else if |xs| == 1 then xs[0] else xs[0] + sep + Join(xs[1..], sep)
  }

  /** Number of occurrences of the character `c` in `s`. */
  function CountChar(s: string, c: char): nat
  {
    if s == [] then 0 else (if s[0] == c then 1 else 0) + CountChar(s[1..], c)
  }

  lemma {:induction false} CountCharAppend(s: string, t: string, c: char)
    ensures CountChar(s + t, c) == CountChar(s, c) + CountChar(t, c)
  {
    if s != [] {
      assert (s + t)[1..] == s[1..] + t;
      CountCharAppend(s[1..], t, c);
    } else {
      assert s + t == t;
    }
  }

  /** Joining `n` pieces free of `sep` with a one-character separator puts
      exactly `n - 1` separators in the text. */
  lemma {:induction false} JoinCount(xs: seq<string>, c: char)
    requires xs != []
    requires forall k :: 0 <= k < |xs| ==> CountChar(xs[k], c) == 0
    ensures CountChar(Join(xs, [c]), c) == |xs| - 1
  {
    if |xs| > 1 {
      JoinCount(xs[1..], c);
      CountCharAppend(xs[0] + [c], Join(xs[1..], [c]), c);
      CountCharAppend(xs[0], [c], c);
      assert CountChar([c], c) == 1 by {
        assert [c][1..] == [];
      }
    }
  }

  /** `s.split(c)` for a one-character separator: the pieces between the
      occurrences of `c`, one more piece than there are occurrences. */
  function Split(s: string, c: char): (r: seq<string>)
    ensures |r| == CountChar(s, c) + 1
    ensures forall k :: 0 <= k < |r| ==> c !in r[k]
  {
    if s == [] then [[]]
    else
      var rest := Split(s[1..], c);
      if s[0] == c then [[]] + rest
      else [[s[0]] + rest[0]] + rest[1..]
  }

  lemma {:induction false} SplitWithout(s: string, c: char)
    requires c !in s
    ensures Split(s, c) == [s]
  {
    if s != [] {
      SplitWithout(s[1..], c);
      assert [s[0]] + s[1..] == s;
    }
  }

  lemma {:induction false} SplitAfter(a: string, c: char, b: string)
    requires c !in a
    ensures Split(a + [c] + b, c) == [a] + Split(b, c)
  {
    if a == [] {
      assert (a + [c] + b)[1..] == b;
    } else {
      SplitAfter(a[1..], c, b);
      assert (a + [c] + b)[1..] == a[1..] + [c] + b;
      assert [a[0]] + a[1..] == a;
    }
  }

  /** Splitting undoes joining when no piece contains the separator. */
  lemma {:induction false} SplitJoin(xs: seq<string>, c: char)
    requires xs != []
    requires forall k :: 0 <= k < |xs| ==> c !in xs[k]
    ensures Split(Join(xs, [c]), c) == xs
  {
    if |xs| == 1 {
      SplitWithout(xs[0], c);
    } else {
      SplitJoin(xs[1..], c);
      SplitAfter(xs[0], c, Join(xs[1..], [c]));
      assert xs == [xs[0]] + xs[1..];
    }
  }

  /** A character in neither the pieces nor the separator is not in the join. */
  lemma {:induction false} JoinAvoids(xs: seq<string>, sep: string, c: char)
    requires c !in sep
    requires forall k :: 0 <= k < |xs| ==> c !in xs[k]
    ensures c !in Join(xs, sep)
  {
    if |xs| > 1 {
      JoinAvoids(xs[1..], sep, c);
    }
  }
}
