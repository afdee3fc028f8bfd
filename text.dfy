/** The Python `str` built-ins the scraper relies on (strip, split, replace, `in`,
    `int()`, `str()` of an int, `lower()`), modelled on `string == seq<char>`. */
module Text {
  import Order

  datatype Option<+T> = None | Some(value: T)

  /** The outcome of a Python computation that may raise: its value, or an exception. */
  datatype Result<+T> = Ok(value: T) | Raised

  /** The characters Python's `str.isspace()` accepts; `strip()` and `split()` without
      arguments use exactly this set. */
  predicate IsSpace(c: char) {
    ('\U{9}' <= c <= '\U{D}') || ('\U{1C}' <= c <= '\U{20}') || c == '\U{85}' || c == '\U{A0}'
    || c == '\U{1680}' || ('\U{2000}' <= c <= '\U{200A}') || c == '\U{2028}' || c == '\U{2029}'
    || c == '\U{202F}' || c == '\U{205F}' || c == '\U{3000}'
  }

  predicate IsParen(c: char) { c == '(' || c == ')' }

  predicate IsDigit(c: char) { '0' <= c <= '9' }

  predicate NoSpace(w: string) { forall k :: 0 <= k < |w| ==> !IsSpace(w[k]) }

  predicate AllDigits(s: string) { forall k :: 0 <= k < |s| ==> IsDigit(s[k]) }

  // ---------------------------------------------------------------- strip

  /** `s.lstrip(chars)`: drops the longest prefix made of characters `drop` accepts. */
  function TrimStart(s: string, drop: char -> bool): (r: string)
    ensures |r| <= |s| && r == s[|s| - |r|..]
    ensures forall k :: 0 <= k < |s| - |r| ==> drop(s[k])
    ensures r != [] ==> !drop(r[0])
    decreases |s|
  {
    if s != [] && drop(s[0]) then TrimStart(s[1..], drop) else s
  }

  /** `s.strip(chars)` for the set of characters `drop` accepts: a dropped character is
      removed from either end until neither end has one. */
  function StripBy(s: string, drop: char -> bool): string
    decreases |s|
  {
    if s != [] && drop(s[0]) then StripBy(s[1..], drop)
    else if s != [] && drop(s[|s| - 1]) then StripBy(s[..|s| - 1], drop)
    else s
  }

  /** What `strip` leaves: no longer than the text, made of its characters, and neither
      starting nor ending with a dropped character. */
  lemma {:induction false} StripByShape(s: string, drop: char -> bool)
    ensures |StripBy(s, drop)| <= |s|
    ensures forall x :: x in StripBy(s, drop) ==> x in s
    ensures var r := StripBy(s, drop); r != [] ==> !drop(r[0]) && !drop(r[|r| - 1])
    decreases |s|
  {
    if s != [] && drop(s[0]) {
      StripByShape(s[1..], drop);
    } else if s != [] && drop(s[|s| - 1]) {
      StripByShape(s[..|s| - 1], drop);
    }
  }

  /** Stripping a text made only of dropped characters leaves nothing. */
  lemma {:induction false} StripByAll(s: string, drop: char -> bool)
    requires forall k :: 0 <= k < |s| ==> drop(s[k])
    ensures StripBy(s, drop) == []
    decreases |s|
  {
    if s != [] {
      assert forall k :: 0 <= k < |s| - 1 ==> s[1..][k] == s[k + 1];
      StripByAll(s[1..], drop);
    }
  }

  /** `s.strip()`. */
  function Strip(s: string): string {
    StripBy(s, IsSpace)
  }

  /** Stripping a string that neither starts nor ends with a dropped character changes nothing. */
  lemma StripByUnchanged(s: string, drop: char -> bool)
    requires s != [] ==> !drop(s[0]) && !drop(s[|s| - 1])
    ensures StripBy(s, drop) == s
  {
  }

  // ---------------------------------------------------------------- split

  /** `sep.join(parts)`. */
  function Join(parts: seq<string>, sep: string): string {
    if parts == [] then []
    else if |parts| == 1 then parts[0]
    else parts[0] + sep + Join(parts[1..], sep)
  }

  /** Concatenation regroups freely. */
  lemma ConcatAssoc<T>(a: seq<T>, b: seq<T>, c: seq<T>)
    ensures (a + b) + c == a + (b + c)
  {
  }

  /** `s.split(c)`: the pieces between occurrences of `c`; joining them back with `c`
      gives `s`, so the pieces are determined. */
  function Split(s: string, c: char): (r: seq<string>)
    ensures |r| >= 1
    ensures forall i :: 0 <= i < |r| ==> c !in r[i]
    ensures Join(r, [c]) == s
    ensures |r| == 1 <==> c !in s
    decreases |s|
  {
    if s == [] then [[]]
    else
      var rest := Split(s[1..], c);
      if s[0] == c then
        assert ([[]] + rest)[1..] == rest;
        [[]] + rest
      else
        var r := [[s[0]] + rest[0]] + rest[1..];
        assert r[1..] == rest[1..];
        assert |rest| > 1 ==> Join(rest, [c]) == rest[0] + [c] + Join(rest[1..], [c]);
        assert s == [s[0]] + s[1..];
        r
  }

  /** A piece without the separator is followed by the rest of the split. */
  lemma {:induction false} SplitAfter(a: string, c: char, b: string)
    requires c !in a
    ensures Split(a + [c] + b, c) == [a] + Split(b, c)
    decreases |a|
  {
    if a == [] {
      assert a + [c] + b == [c] + b;
      assert ([c] + b)[1..] == b;
    } else {
      assert (a + [c] + b)[1..] == a[1..] + [c] + b;
      SplitAfter(a[1..], c, b);
      assert [a[0]] + a[1..] == a;
    }
  }

  /** Splitting a text without the separator yields the text itself. */
  lemma SplitWhole(a: string, c: char)
    requires c !in a
    ensures Split(a, c) == [a]
  {
    var r := Split(a, c);
    assert |r| == 1;
  }

  /** Split undoes Join when no piece contains the separator. */
  lemma {:induction false} SplitJoin(parts: seq<string>, c: char)
    requires parts != []
    requires forall i :: 0 <= i < |parts| ==> c !in parts[i]
    ensures Split(Join(parts, [c]), c) == parts
    decreases |parts|
  {
    if |parts| == 1 {
      SplitWhole(parts[0], c);
    } else {
      SplitJoin(parts[1..], c);
      SplitAfter(parts[0], c, Join(parts[1..], [c]));
      assert [parts[0]] + parts[1..] == parts;
    }
  }

  /** The first piece of `s.split(c)` is the prefix of `s` before its first `c`. */
  lemma SplitHead(s: string, c: char)
    ensures Split(s, c)[0] <= s
    ensures c in s ==> |Split(s, c)[0]| < |s| && s[|Split(s, c)[0]|] == c
  {
    var r := Split(s, c);
    if |r| > 1 {
      assert s == r[0] + [c] + Join(r[1..], [c]);
      assert s[..|r[0]|] == r[0];
    }
  }

  /** The part of `s` after its first `c` (the second half of `s.split(c, 1)`). */
  function AfterFirst(s: string, c: char): (r: string)
    requires c in s
    ensures s == Split(s, c)[0] + [c] + r
  {
    SplitHead(s, c);
    var n := |Split(s, c)[0]|;
    assert s == s[..n] + [c] + s[n + 1..];
    s[n + 1..]
  }

  // ---------------------------------------------------------------- split()

  /** The longest prefix of `s` without whitespace. */
  function TakeWord(s: string): (w: string)
    ensures w <= s && NoSpace(w)
    ensures |w| < |s| ==> IsSpace(s[|w|])
    ensures s != [] && !IsSpace(s[0]) ==> w != []
    decreases |s|
  {
    if s == [] || IsSpace(s[0]) then [] else [s[0]] + TakeWord(s[1..])
  }

  /** `s.split()`: maximal runs of non-whitespace characters. */
  function Words(s: string): seq<string>
    decreases |s|
  {
    var t := TrimStart(s, IsSpace);
    if t == [] then [] else var w := TakeWord(t); [w] + Words(t[|w|..])
  }

  predicate AllSpace(s: string) { forall k :: 0 <= k < |s| ==> IsSpace(s[k]) }

  /** The words are non-empty and free of whitespace. */
  lemma {:induction false} WordsShape(s: string)
    ensures forall i :: 0 <= i < |Words(s)| ==> Words(s)[i] != [] && NoSpace(Words(s)[i])
    decreases |s|
  {
    var t := TrimStart(s, IsSpace);
    if t != [] {
      var w := TakeWord(t);
      var rest := Words(t[|w|..]);
      WordsShape(t[|w|..]);
      assert Words(s) == [w] + rest;
      forall i | 0 <= i < |Words(s)| ensures Words(s)[i] != [] && NoSpace(Words(s)[i]) {
        if i > 0 { assert Words(s)[i] == rest[i - 1]; }
      }
    }
  }

  /** A text has no words exactly when it is all whitespace. */
  lemma WordsEmpty(s: string)
    ensures Words(s) == [] <==> AllSpace(s)
  {
    var t := TrimStart(s, IsSpace);
    if t != [] {
      assert s[|s| - |t|] == t[0];
    }
  }

  /** A word followed by the end of the text or a whitespace character is split off first. */
  lemma WordsStart(w: string, rest: string)
    requires w != [] && NoSpace(w)
    requires rest != [] ==> IsSpace(rest[0])
    ensures Words(w + rest) == [w] + Words(rest)
  {
    var s := w + rest;
    assert TrimStart(s, IsSpace) == s;
    TakeWordOf(w, rest);
    assert s[|w|..] == rest;
    WordsSkipSpace(rest);
  }

  lemma {:induction false} TakeWordOf(w: string, rest: string)
    requires NoSpace(w)
    requires rest != [] ==> IsSpace(rest[0])
    ensures TakeWord(w + rest) == w
    decreases |w|
  {
    if w != [] {
      assert (w + rest)[1..] == w[1..] + rest;
      TakeWordOf(w[1..], rest);
      assert [w[0]] + w[1..] == w;
    }
  }

  /** Leading whitespace does not change the words. */
  lemma WordsSkipSpace(s: string)
    requires s != [] ==> IsSpace(s[0])
    ensures Words(s) == Words(TrimStart(s, IsSpace))
  {
    var t := TrimStart(s, IsSpace);
    TrimStartIdempotent(s);
  }

  lemma {:induction false} TrimStartIdempotent(s: string)
    ensures TrimStart(TrimStart(s, IsSpace), IsSpace) == TrimStart(s, IsSpace)
  {
  }

  // ---------------------------------------------------------------- replace, in

  /** `s.replace(c, '')`. */
  function RemoveChar(s: string, c: char): string
    decreases |s|
  {
    if s == [] then []
    else (if s[0] == c then [] else [s[0]]) + RemoveChar(s[1..], c)
  }

  /** What `RemoveChar` keeps: exactly the other characters. */
  lemma {:induction false} RemoveCharMembers(s: string, c: char)
    ensures forall x :: x in RemoveChar(s, c) <==> x in s && x != c
    decreases |s|
  {
    if s != [] {
      RemoveCharMembers(s[1..], c);
      assert s == [s[0]] + s[1..];
    }
  }

  /** Removing a character that does not occur changes nothing. */
  lemma {:induction false} RemoveCharAbsent(s: string, c: char)
    requires c !in s
    ensures RemoveChar(s, c) == s
    decreases |s|
  {
    if s != [] {
      assert c !in s[1..] by {
        forall k | 0 <= k < |s| - 1 ensures s[1..][k] != c {
          assert s[1..][k] == s[k + 1];
        }
      }
      RemoveCharAbsent(s[1..], c);
      assert s == [s[0]] + s[1..];
    }
  }

  lemma {:induction false} RemoveCharConcat(a: string, b: string, c: char)
    ensures RemoveChar(a + b, c) == RemoveChar(a, c) + RemoveChar(b, c)
    decreases |a|
  {
    var ab := a + b;
    if a != [] {
      RemoveCharConcat(a[1..], b, c);
      assert ab[0] == a[0] && ab[1..] == a[1..] + b;
      var head := if a[0] == c then [] else [a[0]];
      assert RemoveChar(ab, c) == head + RemoveChar(a[1..] + b, c);
      assert RemoveChar(a, c) == head + RemoveChar(a[1..], c);
      assert head + (RemoveChar(a[1..], c) + RemoveChar(b, c)) == (head + RemoveChar(a[1..], c)) + RemoveChar(b, c);
    } else {
      assert ab == b;
    }
  }

  /** `sub in s`: whether `sub` occurs in `s` as a contiguous piece. */
  predicate Contains(s: string, sub: string)
    decreases |s|
  {
    sub <= s || (s != [] && Contains(s[1..], sub))
  }

  /** `sub` occurs in `s` starting at position `i`. */
  predicate OccursAt(s: string, sub: string, i: int) {
    0 <= i <= |s| - |sub| && s[i..i + |sub|] == sub
  }

  /** `Contains` is occurrence at some position. */
  lemma {:induction false} ContainsAt(s: string, sub: string)
    ensures Contains(s, sub) <==> exists i :: OccursAt(s, sub, i)
    decreases |s|
  {
    if sub <= s {
      assert OccursAt(s, sub, 0);
    } else if s == [] {
      assert forall i :: !OccursAt(s, sub, i);
    } else {
      ContainsAt(s[1..], sub);
      if Contains(s[1..], sub) {
        var i :| OccursAt(s[1..], sub, i);
        assert s[1..][i..i + |sub|] == s[i + 1..i + 1 + |sub|];
        assert OccursAt(s, sub, i + 1);
      }
      if exists i :: OccursAt(s, sub, i) {
        var i :| OccursAt(s, sub, i);
        assert s[1..][i - 1..i - 1 + |sub|] == s[i..i + |sub|];
        assert OccursAt(s[1..], sub, i - 1);
      }
    }
  }

  /** `s.replace(pat, '')`: occurrences of `pat` removed left to right, without overlap. */
  function RemoveAll(s: string, pat: string): (r: string)
    ensures |r| <= |s|
    ensures !Contains(s, pat) ==> r == s
    decreases |s|
  {
    if pat == [] || |s| < |pat| then s
    else if pat <= s then RemoveAll(s[|pat|..], pat)
    else [s[0]] + RemoveAll(s[1..], pat)
  }

  /** An occurrence of `pat` whose first character does not occur before it is removed,
      and the text before it is kept. */
  lemma {:induction false} RemoveAllDrops(a: string, pat: string, b: string)
    requires pat != [] && pat[0] !in a
    ensures RemoveAll(a + pat + b, pat) == a + RemoveAll(b, pat)
    decreases |a|
  {
    var s := a + pat + b;
    assert |s| >= |pat|;
    if a == [] {
      assert s == pat + b;
      assert pat <= s;
      assert s[|pat|..] == b;
    } else {
      assert s[0] == a[0] && a[0] != pat[0];
      assert !(pat <= s);
      assert RemoveAll(s, pat) == [s[0]] + RemoveAll(s[1..], pat);
      assert s[1..] == a[1..] + pat + b;
      RemoveAllDrops(a[1..], pat, b);
      assert a == [a[0]] + a[1..];
    }
  }

  /** `str.lower()` on the ASCII letters; every other character is kept. */
  function LowerAscii(s: string): (r: string)
    ensures |r| == |s|
  {
    if s == [] then []
    else [if 'A' <= s[0] <= 'Z' then (s[0] as int + 32) as char else s[0]] + LowerAscii(s[1..])
  }

  // ---------------------------------------------------------------- integers

  function DigitChar(d: nat): char
    requires d < 10
  {
    (d + '0' as int) as char
  }

  /** The value of a run of decimal digits, the most significant first. */
  function DigitsValue(ds: string): nat
    requires AllDigits(ds)
    decreases |ds|
  {
    if ds == [] then 0
    else DigitsValue(ds[..|ds| - 1]) * 10 + (ds[|ds| - 1] as int - '0' as int)
  }

  /** `str(n)` for a natural number; reading its digits back gives `n`. */
  function NatText(n: nat): (s: string)
    ensures s != [] && AllDigits(s)
    ensures DigitsValue(s) == n
  {
    if n < 10 then [DigitChar(n)]
    else
      var s := NatText(n / 10) + [DigitChar(n % 10)];
      assert s[..|s| - 1] == NatText(n / 10);
      s
  }

  /** `str(n)` for an integer. */
  function IntText(n: int): (s: string)
    ensures s != [] && !IsSpace(s[0]) && IsDigit(s[|s| - 1])
    ensures forall k :: 0 <= k < |s| ==> IsDigit(s[k]) || s[k] == '-'
  {
    if n < 0 then "-" + NatText(-n) else NatText(n)
  }

  /** `int(s)` on a text: surrounding whitespace is ignored, then an optional sign and at
      least one ASCII digit; anything else raises ValueError (here `None`). */
  function ParseInt(s: string): Option<int> {
    var t := Strip(s);
    if t != [] && (t[0] == '-' || t[0] == '+') then
      if |t| > 1 && AllDigits(t[1..]) then
        var v: int := DigitsValue(t[1..]);
        Some(if t[0] == '-' then -v else v)
      else None
    else if t != [] && AllDigits(t) then Some(DigitsValue(t))
    else None
  }

  /** `int(str(n)) == n`. */
  lemma ParseIntText(n: int)
    ensures ParseInt(IntText(n)) == Some(n)
  {
    var s := IntText(n);
    StripByUnchanged(s, IsSpace);
    if n < 0 {
      assert s[1..] == NatText(-n);
    }
  }

  /** Surrounding whitespace does not change the value `int()` reads. */
  lemma ParseIntStripped(s: string)
    ensures ParseInt(Strip(s)) == ParseInt(s)
  {
    StripIdempotent(s, IsSpace);
  }

  lemma StripIdempotent(s: string, drop: char -> bool)
    ensures StripBy(StripBy(s, drop), drop) == StripBy(s, drop)
  {
    var t := StripBy(s, drop);
    StripByShape(s, drop);
    StripByUnchanged(t, drop);
  }

  /** `strip` removes dropped characters only: every other character of the text stays. */
  lemma {:induction false} StripByKeeps(s: string, drop: char -> bool, x: char)
    requires x in s && !drop(x)
    ensures x in StripBy(s, drop)
    decreases |s|
  {
    if s != [] && drop(s[0]) {
      assert x in s[1..] by { assert s == [s[0]] + s[1..]; }
      StripByKeeps(s[1..], drop, x);
    } else if s != [] && drop(s[|s| - 1]) {
      assert x in s[..|s| - 1] by { assert s == s[..|s| - 1] + [s[|s| - 1]]; }
      StripByKeeps(s[..|s| - 1], drop, x);
    }
  }

  /** A dropped character at the end does not change what `strip` leaves. */
  lemma {:induction false} StripBySnoc(s: string, drop: char -> bool, d: char)
    requires drop(d)
    ensures StripBy(s + [d], drop) == StripBy(s, drop)
    decreases |s|
  {
    var t := s + [d];
    if s == [] {
      assert t[1..] == [];
    } else if drop(s[0]) {
      assert t[1..] == s[1..] + [d];
      StripBySnoc(s[1..], drop, d);
    } else {
      assert t[..|t| - 1] == s;
    }
  }

  /** Stripping `p + [c] + q` around a kept `c` trims only the two outer parts: what is
      left is a suffix of `p`, then `c`, then a prefix of `q`, each stripping as its part. */
  lemma {:induction false} StripMiddle(p: string, c: char, q: string, drop: char -> bool)
      returns (p': string, q': string)
    requires !drop(c)
    ensures StripBy(p + [c] + q, drop) == p' + [c] + q'
    ensures |p'| <= |p| && p' == p[|p| - |p'|..] && q' <= q
    ensures StripBy(p', drop) == StripBy(p, drop) && StripBy(q', drop) == StripBy(q, drop)
    decreases |p| + |q|
  {
    var s := p + [c] + q;
    if drop(s[0]) {
      assert p != [] && s[0] == p[0];
      assert s[1..] == p[1..] + [c] + q;
      p', q' := StripMiddle(p[1..], c, q, drop);
    } else if drop(s[|s| - 1]) {
      assert q != [] && s[|s| - 1] == q[|q| - 1];
      var q0 := q[..|q| - 1];
      assert s[..|s| - 1] == p + [c] + q0;
      p', q' := StripMiddle(p, c, q0, drop);
      assert q == q0 + [q[|q| - 1]];
      StripBySnoc(q0, drop, q[|q| - 1]);
    } else {
      p', q' := p, q;
    }
  }

  /** The key Python orders strings by: the code points (each shifted up by one) followed by
      a 0, so a proper prefix sorts first; further tuple fields may follow the 0. */
  function StrKey(s: string): (r: seq<int>)
    ensures |r| == |s| + 1 && r[|s|] == 0
    ensures forall k :: 0 <= k < |s| ==> r[k] == s[k] as int + 1
  {
    seq(|s|, k requires 0 <= k < |s| => s[k] as int + 1) + [0]
  }

  lemma StrKeyCons(s: string)
    requires s != []
    ensures StrKey(s) == [s[0] as int + 1] + StrKey(s[1..])
  {
    assert StrKey(s)[1..] == StrKey(s[1..]);
  }

  /** A string key determines the string and what follows it. */
  lemma StrKeySplit(a: string, b: string, x: seq<int>, y: seq<int>)
    requires StrKey(a) + x == StrKey(b) + y
    ensures a == b && x == y
  {
    var ka, kb := StrKey(a) + x, StrKey(b) + y;
    var m := if |a| < |b| then |a| else |b|;
    assert ka[m] == StrKey(a)[m] && kb[m] == StrKey(b)[m];
    assert (StrKey(a)[m] == 0) == (m == |a|);
    assert (StrKey(b)[m] == 0) == (m == |b|);
    assert |a| == |b|;
    forall k | 0 <= k < |a| ensures a[k] == b[k] {
      assert ka[k] == kb[k];
    }
    assert x == ka[|a| + 1..] && y == kb[|b| + 1..];
  }

  /** `a <= b` on Python strings. */
  predicate StrLe(a: string, b: string) {
    Order.KeyLe(StrKey(a), StrKey(b))
  }

  /** A tuple key that starts with a string orders its strings first. */
  lemma {:induction false} StrKeyLead(a: string, b: string, x: seq<int>, y: seq<int>)
    requires Order.KeyLe(StrKey(a) + x, StrKey(b) + y)
    ensures StrLe(a, b)
    decreases |a|
  {
    if a == [] {
      assert StrKey(a) == [0];
      if b != [] { assert StrKey(b)[0] == b[0] as int + 1; }
    } else if b == [] {
      assert (StrKey(a) + x)[0] == a[0] as int + 1;
      assert (StrKey(b) + y)[0] == 0;
    } else {
      StrKeyCons(a);
      StrKeyCons(b);
      assert StrKey(a) + x == [a[0] as int + 1] + (StrKey(a[1..]) + x);
      assert StrKey(b) + y == [b[0] as int + 1] + (StrKey(b[1..]) + y);
      if a[0] == b[0] {
        StrKeyLead(a[1..], b[1..], x, y);
      }
    }
  }

  /** `<=` on strings is a total order. */
  lemma StrLeOrder(a: string, b: string, c: string)
    ensures StrLe(a, b) || StrLe(b, a)
    ensures StrLe(a, b) && StrLe(b, a) ==> a == b
    ensures StrLe(a, b) && StrLe(b, c) ==> StrLe(a, c)
  {
    Order.KeyLeTotal(StrKey(a), StrKey(b));
    if StrLe(a, b) && StrLe(b, a) {
      Order.KeyLeAntisymmetric(StrKey(a), StrKey(b));
      assert StrKey(a) + [] == StrKey(b) + [];
      StrKeySplit(a, b, [], []);
    }
    if StrLe(a, b) && StrLe(b, c) {
      Order.KeyLeTransitive(StrKey(a), StrKey(b), StrKey(c));
    }
  }
}
