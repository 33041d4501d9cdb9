/** The str methods of Python that the parsers and the menus rely on. */
module Text {
  import opened Common

  /** str.isspace for one character. */
  predicate IsSpace(c: char) {
    var n := c as int;
    || 9 <= n <= 13 || 28 <= n <= 32 || n == 0x85 || n == 0xA0 || n == 0x1680
    || 0x2000 <= n <= 0x200A || n == 0x2028 || n == 0x2029 || n == 0x202F || n == 0x205F || n == 0x3000
  }

  /** The same one by one. */
  lemma SpacesAre(c: char)
    ensures IsSpace(c) <==>
      || c in {'\t', '\n', '\r', ' '}
      || c as int in {11, 12, 28, 29, 30, 31, 133, 160, 5760, 8232, 8233, 8239, 8287, 12288}
      || 8192 <= c as int <= 8202
  {}

  function TrimLeft(s: string): (t: string)
    ensures t != "" ==> !IsSpace(t[0])
  {
    if s == "" || !IsSpace(s[0]) then s else TrimLeft(s[1..])
  }

  function TrimRight(s: string): (t: string)
    ensures t != "" ==> !IsSpace(t[|t| - 1])
  {
    if s == "" || !IsSpace(s[|s| - 1]) then s else TrimRight(s[..|s| - 1])
  }

  /** str.strip */
  function Trim(s: string): string {
    TrimRight(TrimLeft(s))
  }

  lemma {:induction false} TrimLeftIs(s: string) returns (n: nat)
    ensures n <= |s| && TrimLeft(s) == s[n..] && forall i | 0 <= i < n :: IsSpace(s[i])
  {
    n := 0;
    if s != "" && IsSpace(s[0]) {
      var rest := TrimLeftIs(s[1..]);
      n := rest + 1;
      assert s[1..][rest..] == s[n..];
      forall i | 0 <= i < n ensures IsSpace(s[i]) {
        assert i > 0 ==> s[i] == s[1..][i - 1];
      }
    }
  }

  lemma {:induction false} TrimRightIs(s: string) returns (n: nat)
    ensures n <= |s| && TrimRight(s) == s[..n] && forall i | n <= i < |s| :: IsSpace(s[i])
  {
    n := |s|;
    if s != "" && IsSpace(s[|s| - 1]) {
      n := TrimRightIs(s[..|s| - 1]);
      assert s[..|s| - 1][..n] == s[..n];
      forall i | n <= i < |s| ensures IsSpace(s[i]) {
        assert i < |s| - 1 ==> s[i] == s[..|s| - 1][i];
      }
    }
  }

  /** What strip takes off are spaces, and none is left at either end. */
  lemma TrimIs(s: string) returns (a: nat, b: nat)
    ensures a <= b <= |s| && Trim(s) == s[a..b]
    ensures forall i | 0 <= i < |s| && !(a <= i < b) :: IsSpace(s[i])
    ensures Trim(s) != "" ==> !IsSpace(Trim(s)[0]) && !IsSpace(Trim(s)[|Trim(s)| - 1])
  {
    a := TrimLeftIs(s);
    var left := s[a..];
    var n := TrimRightIs(left);
    b := a + n;
    assert left[..n] == s[a..b];
    forall i | 0 <= i < |s| && !(a <= i < b) ensures IsSpace(s[i]) {
      assert i >= b ==> s[i] == left[i - a];
    }
    assert Trim(s) != "" ==> Trim(s)[0] == left[0];
  }

  lemma TrimKeeps(s: string)
    requires s != "" && !IsSpace(s[0]) && !IsSpace(s[|s| - 1])
    ensures Trim(s) == s
  {}

  /** The position of the first c, or the length when there is none. */
  function First(s: string, c: char): (i: nat)
    ensures i <= |s|
    ensures i < |s| ==> s[i] == c
  {
    if s == "" || s[0] == c then 0 else 1 + First(s[1..], c)
  }

  lemma {:induction false} FirstMisses(s: string, c: char)
    ensures forall i | 0 <= i < First(s, c) :: s[i] != c
  {
    if s != "" && s[0] != c {
      FirstMisses(s[1..], c);
      forall i | 0 <= i < First(s, c) ensures s[i] != c {
        assert i > 0 ==> s[i] == s[1..][i - 1];
      }
    }
  }

  lemma {:induction false} FirstIs(s: string, c: char, i: nat)
    requires i <= |s| && forall k | 0 <= k < i :: s[k] != c
    requires i < |s| ==> s[i] == c
    ensures First(s, c) == i
  {
    if i > 0 {
      FirstIs(s[1..], c, i - 1);
    }
  }

  /** The position of the last c, or -1. */
  function Last(s: string, c: char): (i: int)
    ensures -1 <= i < |s|
    ensures i >= 0 ==> s[i] == c
  {
    if s == "" then -1
    else if s[|s| - 1] == c then |s| - 1
    else Last(s[..|s| - 1], c)
  }

  lemma {:induction false} LastMisses(s: string, c: char)
    ensures forall i | Last(s, c) < i < |s| :: s[i] != c
  {
    if s != "" && s[|s| - 1] != c {
      LastMisses(s[..|s| - 1], c);
      forall i | Last(s, c) < i < |s| ensures s[i] != c {
        assert i < |s| - 1 ==> s[i] == s[..|s| - 1][i];
      }
    }
  }

  lemma {:induction false} LastIs(s: string, c: char, i: nat)
    requires i < |s| && s[i] == c && forall k | i < k < |s| :: s[k] != c
    ensures Last(s, c) == i
  {
    if i < |s| - 1 {
      LastIs(s[..|s| - 1], c, i);
    }
  }

  /** str.split(c, 1): what stands before the first c, and what stands after it. */
  function Cut(s: string, c: char): (string, Option<string>) {
    var i := First(s, c);
    (s[..i], if i < |s| then Some(s[i + 1..]) else None)
  }

  function Joined(left: string, c: char, right: Option<string>): string {
    if right.Some? then left + [c] + right.value else left
  }

  lemma CutJoined(left: string, c: char, right: Option<string>)
    requires c !in left
    ensures Cut(Joined(left, c, right), c) == (left, right)
  {
    var text := Joined(left, c, right);
    assert text[..|left|] == left;
    assert forall k | 0 <= k < |left| :: text[k] == left[k];
    FirstIs(text, c, |left|);
    if right.Some? {
      assert text[|left| + 1..] == right.value;
    }
  }

  lemma CutMisses(s: string, c: char)
    ensures c !in Cut(s, c).0
    ensures forall d: char | d !in s :: d !in Cut(s, c).0
  {
    FirstMisses(s, c);
  }

  /** The position of the first occurrence of t, or the length when there is none. */
  function Find(s: string, t: string): (i: nat)
    requires t != ""
    ensures i <= |s|
  {
    if s == "" || t <= s then 0 else 1 + Find(s[1..], t)
  }

  /** It is one, and there is none before it. */
  lemma {:induction false} FindIsFirst(s: string, t: string)
    requires t != ""
    ensures Find(s, t) < |s| ==> t <= s[Find(s, t)..]
    ensures forall i | 0 <= i < Find(s, t) :: !(t <= s[i..])
  {
    if s != "" && !(t <= s) {
      FindIsFirst(s[1..], t);
      forall i | 0 <= i < Find(s, t) ensures !(t <= s[i..]) {
        if i == 0 {
          assert s[0..] == s;
        } else {
          assert s[i..] == s[1..][i - 1..];
        }
      }
      if Find(s, t) < |s| {
        assert s[Find(s, t)..] == s[1..][Find(s[1..], t)..];
      }
    } else if s != "" {
      assert s[0..] == s;
    }
  }

  /** str.lower, as far as an ASCII result goes: the Kelvin sign is the one other character with one. */
  function LowerChar(c: char): char {
    if 'A' <= c <= 'Z' then (c as int + 32) as char
    else if c as int == 0x212A then 'k'
    else c
  }

  lemma LowerLetters()
    ensures Lower("ABCDEFGHIJKLMNOPQRSTUVWXYZ") == "abcdefghijklmnopqrstuvwxyz" && LowerChar('\U{212A}') == 'k'
    ensures forall c: char | !('A' <= c <= 'Z') && c as int != 0x212A :: LowerChar(c) == c
  {}

  function Lower(s: string): (t: string)
    ensures |t| == |s| && forall i | 0 <= i < |s| :: t[i] == LowerChar(s[i])
  {
    seq(|s|, i requires 0 <= i < |s| => LowerChar(s[i]))
  }

  /** t in s */
  predicate Contains(s: string, t: string) {
    t <= s || (s != "" && Contains(s[1..], t))
  }

  lemma {:induction false} StretchInside(s: string, t: string) returns (i: nat)
    requires Contains(s, t)
    ensures i <= |s| && t <= s[i..]
  {
    if t <= s {
      i := 0;
      assert s[0..] == s;
    } else {
      var rest := StretchInside(s[1..], t);
      i := rest + 1;
      assert s[i..] == s[1..][rest..];
    }
  }

  lemma {:induction false} StretchContained(s: string, t: string, i: nat)
    requires i <= |s| && t <= s[i..]
    ensures Contains(s, t)
  {
    if i == 0 {
      assert s[0..] == s;
    } else {
      assert s[1..][i - 1..] == s[i..];
      StretchContained(s[1..], t, i - 1);
    }
  }

  /** Some stretch of s is t. */
  lemma ContainsIff(s: string, t: string)
    ensures Contains(s, t) <==> exists i, j :: 0 <= i <= j <= |s| && s[i..j] == t
  {
    if Contains(s, t) {
      var i := StretchInside(s, t);
      assert s[i..i + |t|] == s[i..][..|t|] == t;
    }
    if i, j :| 0 <= i <= j <= |s| && s[i..j] == t {
      assert s[i..][..j - i] == t;
      StretchContained(s, t, i);
    }
  }
}
