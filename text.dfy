/** The three string operations the extractor relies on, written as Python
    defines them: `str.strip()` with no argument, `str.lower()` and the
    substring test `t in s`. */
module Text {

  /** Python's `str.isspace()`: the characters `str.strip()` removes. */
  predicate IsSpace(c: char) {
    var n := c as int;
    n == 0x20 || 0x09 <= n <= 0x0D || 0x1C <= n <= 0x1F || n == 0x85 || n == 0xA0
    || n == 0x1680 || 0x2000 <= n <= 0x200A || n == 0x2028 || n == 0x2029
    || n == 0x202F || n == 0x205F || n == 0x3000
  }

  /** Drops leading whitespace: the result does not start with whitespace. */
  function TrimStart(s: string): (r: string)
    ensures |r| <= |s|
    ensures r == [] || !IsSpace(r[0])
  {
    if s != [] && IsSpace(s[0]) then TrimStart(s[1..]) else s
  }

  /** Drops trailing whitespace: the result does not end with whitespace
      and keeps the first character. */
  function TrimEnd(s: string): (r: string)
    ensures |r| <= |s|
    ensures r == [] || !IsSpace(r[|r| - 1])
    ensures r != [] ==> r[0] == s[0]
  {
    if s != [] && IsSpace(s[|s| - 1]) then TrimEnd(s[..|s| - 1]) else s
  }

  /** `s.strip()`: neither starts nor ends with whitespace. */
  function Trim(s: string): (r: string)
    ensures r == [] || (!IsSpace(r[0]) && !IsSpace(r[|r| - 1]))
  {
    TrimEnd(TrimStart(s))
  }

  /** `TrimStart` keeps a suffix. */
  lemma {:induction false} TrimStartIsSuffix(s: string)
    ensures TrimStart(s) == s[|s| - |TrimStart(s)|..]
  {
    if s != [] && IsSpace(s[0]) {
      TrimStartIsSuffix(s[1..]);
    }
  }

  /** `TrimEnd` keeps a prefix. */
  lemma {:induction false} TrimEndIsPrefix(s: string)
    ensures TrimEnd(s) == s[..|TrimEnd(s)|]
  {
    if s != [] && IsSpace(s[|s| - 1]) {
      TrimEndIsPrefix(s[..|s| - 1]);
    }
  }

  /** Everything `TrimStart` drops is whitespace. */
  lemma {:induction false} TrimStartDropsSpace(s: string, i: nat)
    requires i < |s| - |TrimStart(s)|
    ensures IsSpace(s[i])
  {
    if i > 0 {
      TrimStartDropsSpace(s[1..], i - 1);
    }
  }

  /** Everything `TrimEnd` drops is whitespace. */
  lemma {:induction false} TrimEndDropsSpace(s: string, i: nat)
    requires |TrimEnd(s)| <= i < |s|
    ensures IsSpace(s[i])
  {
    if i < |s| - 1 {
      TrimEndDropsSpace(s[..|s| - 1], i);
    }
  }

  /** `s.strip()` is the piece of `s` between its leading and trailing
      whitespace: it is `s[lo..lo + |Trim(s)|]` and every character of `s`
      outside that piece is whitespace. */
  lemma TrimIsInnerPiece(s: string, i: nat)
    requires i < |s|
    ensures var lo := |s| - |TrimStart(s)|;
      && lo + |Trim(s)| <= |s| && Trim(s) == s[lo..lo + |Trim(s)|]
      && (i < lo || lo + |Trim(s)| <= i ==> IsSpace(s[i]))
  {
    var left := TrimStart(s);
    var lo := |s| - |left|;
    TrimStartIsSuffix(s);
    TrimEndIsPrefix(left);
    assert Trim(s) == left[..|Trim(s)|];
    if i < lo {
      TrimStartDropsSpace(s, i);
    } else if lo + |Trim(s)| <= i {
      TrimEndDropsSpace(left, i - lo);
    }
  }

  /** Stripping is idempotent: a stripped text is its own strip. */
  lemma TrimIdempotent(s: string)
    ensures Trim(Trim(s)) == Trim(s)
  {
    var t := Trim(s);
    assert TrimStart(t) == t;
    assert TrimEnd(t) == t;
  }

  /** `str.lower()` on one character; only ASCII letters are folded. */
  function LowerChar(c: char): char {
    if 'A' <= c <= 'Z' then (c as int - 'A' as int + 'a' as int) as char else c
  }

  /** `s.lower()`, character by character. */
  function Lower(s: string): (r: string)
    ensures |r| == |s|
  {
    if s == [] then [] else [LowerChar(s[0])] + Lower(s[1..])
  }

  /** Each character of `s.lower()` is the lowered character of `s`. */
  lemma {:induction false} LowerAt(s: string, i: nat)
    requires i < |s|
    ensures Lower(s)[i] == LowerChar(s[i])
  {
    if i > 0 {
      LowerAt(s[1..], i - 1);
    }
  }

  /** Lowering commutes with taking a slice. */
  lemma LowerSlice(s: string, i: nat, j: nat)
    requires i <= j <= |s|
    ensures Lower(s)[i..j] == Lower(s[i..j])
  {
    var left, right := Lower(s)[i..j], Lower(s[i..j]);
    forall n | 0 <= n < j - i
      ensures left[n] == right[n]
    {
      LowerAt(s, i + n);
      LowerAt(s[i..j], n);
    }
  }

  /** A text without upper-case ASCII letters is its own lower-case form. */
  lemma {:induction false} LowerOfLowercase(s: string)
    requires forall i :: 0 <= i < |s| ==> !('A' <= s[i] <= 'Z')
    ensures Lower(s) == s
  {
    if s != [] {
      LowerOfLowercase(s[1..]);
    }
  }

  /** Python's `t in s` on strings: `t` occurs in `s` at some offset. */
  predicate Contains(s: string, t: string)
    ensures Contains(s, t) ==> |t| <= |s|
    ensures t <= s ==> Contains(s, t)
  {
    t <= s || (s != [] && Contains(s[1..], t))
  }

  /** An occurrence is found at exactly the offsets where `t` starts. */
  lemma {:induction false} ContainsAt(s: string, t: string, k: nat)
    requires k + |t| <= |s| && s[k..k + |t|] == t
    ensures Contains(s, t)
  {
    if k == 0 {
      assert t <= s;
    } else {
      assert s[1..][k - 1..k - 1 + |t|] == t;
      ContainsAt(s[1..], t, k - 1);
    }
  }

  /** Every occurrence has an offset. */
  lemma {:induction false} ContainsOffset(s: string, t: string) returns (k: nat)
    requires Contains(s, t)
    ensures k + |t| <= |s| && s[k..k + |t|] == t
  {
    if t <= s {
      k := 0;
    } else {
      var k' := ContainsOffset(s[1..], t);
      k := k' + 1;
      assert s[k..k + |t|] == s[1..][k'..k' + |t|];
    }
  }

  /** A text that contains `a + b + c` contains `b`. */
  lemma ContainsPiece(s: string, a: string, b: string, c: string)
    requires Contains(s, a + b + c)
    ensures Contains(s, b)
  {
    var w := a + b + c;
    var k := ContainsOffset(s, w);
    forall n | 0 <= n < |b|
      ensures s[k + |a| + n] == b[n]
    {
      assert s[k + |a| + n] == s[k..k + |w|][|a| + n] == w[|a| + n];
    }
    assert s[k + |a|..k + |a| + |b|] == b;
    ContainsAt(s, b, k + |a|);
  }

  /** An occurrence of `t` at offset `k` is an occurrence of its lower-case
      form in the lower-case text. */
  lemma LowerOccurrence(s: string, t: string, k: nat)
    requires k + |t| <= |s| && s[k..k + |t|] == t
    ensures Lower(s)[k..k + |t|] == Lower(t)
  {
    LowerSlice(s, k, k + |t|);
  }

  /** An occurrence survives lowering both texts. */
  lemma LowerContains(s: string, t: string)
    requires Contains(s, t)
    ensures Contains(Lower(s), Lower(t))
  {
    var k := ContainsOffset(s, t);
    LowerOccurrence(s, t, k);
    assert |Lower(t)| == |t|;
    ContainsAt(Lower(s), Lower(t), k);
  }
}
