/** The few functions of Go's `strings` and `unicode` packages the backend
    relies on, over strings seen as sequences of Unicode code points. */
module GoStrings {

  /** Go's unicode.IsSpace: the Latin-1 spaces and the White_Space code points above Latin-1. */
  predicate IsSpace(c: char) {
    c == ' ' || c == '\t' || c == '\n' || c == '\U{000B}' || c == '\U{000C}' || c == '\r'
    || c == '\U{0085}' || c == '\U{00A0}' || c == '\U{1680}'
    || ('\U{2000}' <= c <= '\U{200A}')
    || c == '\U{2028}' || c == '\U{2029}' || c == '\U{202F}' || c == '\U{205F}' || c == '\U{3000}'
  }

  predicate AllSpace(s: string) {
    forall i :: 0 <= i < |s| ==> IsSpace(s[i])
  }

  /** Neither the first nor the last code point is a space. */
  predicate Trimmed(s: string) {
    |s| > 0 ==> !IsSpace(s[0]) && !IsSpace(s[|s| - 1])
  }

  /** Drops the leading spaces: what is dropped is all space, what is kept does not start with one. */
  function TrimLeft(s: string): (r: string)
    ensures |r| <= |s| && r == s[|s| - |r|..]
    ensures AllSpace(s[..|s| - |r|])
    ensures |r| > 0 ==> !IsSpace(r[0])
  {
    if |s| > 0 && IsSpace(s[0]) then TrimLeft(s[1..]) else s
  }

  /** Drops the trailing spaces. */
  function TrimRight(s: string): (r: string)
    ensures |r| <= |s| && r == s[..|r|]
    ensures AllSpace(s[|r|..])
    ensures |r| > 0 ==> !IsSpace(r[|r| - 1])
  {
    if |s| > 0 && IsSpace(s[|s| - 1]) then TrimRight(s[..|s| - 1]) else s
  }

  /** strings.TrimSpace. */
  function TrimSpace(s: string): (r: string)
    ensures Trimmed(r)
    ensures r == "" <==> AllSpace(s)
  {
    var l := TrimLeft(s);
    var r := TrimRight(l);
    assert r == "" ==> AllSpace(s) by {
      if r == "" {
        forall i | 0 <= i < |s| ensures IsSpace(s[i]) {
          assert s[i] == s[..|s| - |l|][i];
        }
      }
    }
    r
  }

  lemma AllSpaceConcat(a: string, b: string)
    requires AllSpace(a) && AllSpace(b)
    ensures AllSpace(a + b)
  {
    forall i | 0 <= i < |a + b| ensures IsSpace((a + b)[i]) {
      if i >= |a| { assert (a + b)[i] == b[i - |a|]; }
    }
  }

  lemma {:induction false} TrimLeftOf(pre: string, core: string)
    requires AllSpace(pre)
    requires |core| > 0 ==> !IsSpace(core[0])
    ensures TrimLeft(pre + core) == core
  {
    if |pre| > 0 {
      assert (pre + core)[1..] == pre[1..] + core;
      TrimLeftOf(pre[1..], core);
    } else {
      assert pre + core == core;
    }
  }

  lemma {:induction false} TrimRightOf(core: string, post: string)
    requires AllSpace(post)
    requires |core| > 0 ==> !IsSpace(core[|core| - 1])
    ensures TrimRight(core + post) == core
  {
    if |post| > 0 {
      assert (core + post)[..|core + post| - 1] == core + post[..|post| - 1];
      TrimRightOf(core, post[..|post| - 1]);
    } else {
      assert core + post == core;
    }
  }

  /** TrimSpace removes exactly the surrounding spaces: a trimmed core wrapped in
      spaces on either side trims back to that core. */
  lemma TrimSpaceOf(pre: string, core: string, post: string)
    requires AllSpace(pre) && AllSpace(post) && Trimmed(core)
    ensures TrimSpace(pre + core + post) == core
  {
    if core == "" {
      assert pre + core + post == pre + post;
      AllSpaceConcat(pre, post);
    } else {
      assert pre + core + post == pre + (core + post);
      assert (core + post)[0] == core[0];
      TrimLeftOf(pre, core + post);
      TrimRightOf(core, post);
    }
  }

  /** A string with no surrounding space trims to itself. */
  lemma TrimmedFixed(s: string)
    requires Trimmed(s)
    ensures TrimSpace(s) == s
  {
    assert "" + s + "" == s;
    TrimSpaceOf("", s, "");
  }

  /** Trimming twice is trimming once. */
  lemma TrimSpaceIdempotent(s: string)
    ensures TrimSpace(TrimSpace(s)) == TrimSpace(s)
  {
    var t := TrimSpace(s);
    assert "" + t + "" == t;
    TrimSpaceOf("", t, "");
  }

  /** strings.HasPrefix. */
  predicate HasPrefix(s: string, prefix: string) {
    |prefix| <= |s| && s[..|prefix|] == prefix
  }

  /** strings.Contains, searching from the left. */
  predicate Contains(s: string, sub: string)
    decreases |s|
  {
    HasPrefix(s, sub) || (|s| > 0 && Contains(s[1..], sub))
  }

  /** Contains holds exactly when `sub` occurs at some offset of `s`. */
  lemma {:induction false} ContainsAt(s: string, sub: string, k: nat)
    requires k + |sub| <= |s| && s[k..k + |sub|] == sub
    ensures Contains(s, sub)
  {
    if k > 0 {
      assert s[1..][k - 1..k - 1 + |sub|] == s[k..k + |sub|];
      ContainsAt(s[1..], sub, k - 1);
    } else {
      assert s[..|sub|] == sub;
    }
  }

  lemma {:induction false} ContainsWitness(s: string, sub: string) returns (k: nat)
    requires Contains(s, sub)
    ensures k + |sub| <= |s| && s[k..k + |sub|] == sub
    decreases |s|
  {
    if HasPrefix(s, sub) {
      k := 0;
    } else {
      var j := ContainsWitness(s[1..], sub);
      assert s[1..][j..j + |sub|] == s[j + 1..j + 1 + |sub|];
      k := j + 1;
    }
  }

  /** unicode.ToLower restricted to ASCII letters. */
  function LowerChar(c: char): (r: char)
    ensures !('A' <= r <= 'Z')
    ensures !('A' <= c <= 'Z') ==> r == c
  {
    if 'A' <= c <= 'Z' then (c as int + 32) as char else c
  }

  /** strings.ToLower, on the ASCII letters. */
  function ToLower(s: string): (r: string)
    ensures |r| == |s|
    ensures forall i :: 0 <= i < |s| ==> r[i] == LowerChar(s[i])
  {
    if s == [] then [] else [LowerChar(s[0])] + ToLower(s[1..])
  }

  lemma ToLowerIdempotent(s: string)
    ensures ToLower(ToLower(s)) == ToLower(s)
  {
  }

  lemma SpaceLower(c: char)
    ensures IsSpace(LowerChar(c)) == IsSpace(c)
  {
  }

  lemma {:induction false} TrimLeftLower(s: string)
    ensures TrimLeft(ToLower(s)) == ToLower(TrimLeft(s))
  {
    if s != [] {
      SpaceLower(s[0]);
      assert ToLower(s)[1..] == ToLower(s[1..]);
      TrimLeftLower(s[1..]);
    }
  }

  lemma {:induction false} TrimRightLower(s: string)
    ensures TrimRight(ToLower(s)) == ToLower(TrimRight(s))
  {
    if s != [] {
      SpaceLower(s[|s| - 1]);
      assert ToLower(s)[..|s| - 1] == ToLower(s[..|s| - 1]);
      TrimRightLower(s[..|s| - 1]);
    }
  }

  /** Lower-casing neither creates nor removes spaces, so it commutes with trimming. */
  lemma TrimLowerCommute(s: string)
    ensures TrimSpace(ToLower(s)) == ToLower(TrimSpace(s))
  {
    TrimLeftLower(s);
    TrimRightLower(TrimLeft(s));
  }

  /** Number of occurrences of `c` in `s`. */
  function Count(s: string, c: char): nat {
    if s == [] then 0 else (if s[0] == c then 1 else 0) + Count(s[1..], c)
  }

  /** strings.Split with a one-character separator: never empty, and no part holds the separator. */
  function Split(s: string, sep: char): (parts: seq<string>)
    ensures |parts| == Count(s, sep) + 1
    ensures forall k :: 0 <= k < |parts| ==> sep !in parts[k]
  {
    if s == [] then [""]
    else
      var rest := Split(s[1..], sep);
      if s[0] == sep then [""] + rest else [[s[0]] + rest[0]] + rest[1..]
  }

  /** strings.Join: the parts with the separator between neighbours. */
  function Join(parts: seq<string>, sep: char): string
    requires |parts| > 0
  {
    if |parts| == 1 then parts[0] else parts[0] + [sep] + Join(parts[1..], sep)
  }

  /** Splitting loses nothing: joining the parts gives back the string. */
  lemma {:induction false} JoinSplit(s: string, sep: char)
    ensures Join(Split(s, sep), sep) == s
  {
    if s != [] {
      var rest := Split(s[1..], sep);
      JoinSplit(s[1..], sep);
      if s[0] == sep {
        assert Split(s, sep)[1..] == rest;
      } else {
        var parts := Split(s, sep);
        if |rest| == 1 {
          assert parts == [[s[0]] + rest[0]];
        } else {
          assert parts[1..] == rest[1..];
          assert Join(rest, sep) == rest[0] + [sep] + Join(rest[1..], sep);
        }
      }
    }
  }

  /** The number of bytes of the UTF-8 encoding of `c`. */
  function Utf8Width(c: char): (n: nat)
    ensures 1 <= n <= 4
  {
    if c as int < 0x80 then 1 else if c as int < 0x800 then 2 else if c as int < 0x10000 then 3 else 4
  }

  /** Go's len() of a string: the length of its UTF-8 encoding. */
  function Utf8Len(s: string): (n: nat)
    ensures |s| <= n <= 4 * |s|
  {
    if s == [] then 0 else Utf8Width(s[0]) + Utf8Len(s[1..])
  }
}
