/** The few `java.lang.String` operations the core relies on. */
module JavaText {

  /** The characters `String.trim` removes: every character up to and including the space. */
  predicate IsTrimmable(c: char) {
    c <= ' '
  }

  /** `s` without its leading trimmable characters. */
  function TrimStart(s: string): (r: string)
    ensures |r| <= |s|
  {
    if s != [] && IsTrimmable(s[0]) then TrimStart(s[1..]) else s
  }

  /** `TrimStart` removes a prefix of trimmable characters and stops at a kept one. */
  lemma {:induction false} TrimStartShape(s: string)
    ensures TrimStart(s) == s[|s| - |TrimStart(s)|..]
    ensures forall k :: 0 <= k < |s| - |TrimStart(s)| ==> IsTrimmable(s[k])
    ensures TrimStart(s) != [] ==> !IsTrimmable(TrimStart(s)[0])
  {
    if s != [] && IsTrimmable(s[0]) {
      TrimStartShape(s[1..]);
    }
  }

  /** `s` without its trailing trimmable characters. */
  function TrimEnd(s: string): (r: string)
    ensures |r| <= |s|
  {
    if s != [] && IsTrimmable(s[|s| - 1]) then TrimEnd(s[..|s| - 1]) else s
  }

  /** `TrimEnd` removes a suffix of trimmable characters and stops at a kept one. */
  lemma {:induction false} TrimEndShape(s: string)
    ensures TrimEnd(s) == s[..|TrimEnd(s)|]
    ensures forall k :: |TrimEnd(s)| <= k < |s| ==> IsTrimmable(s[k])
    ensures TrimEnd(s) != [] ==> !IsTrimmable(TrimEnd(s)[|TrimEnd(s)| - 1])
  {
    if s != [] && IsTrimmable(s[|s| - 1]) {
      TrimEndShape(s[..|s| - 1]);
    }
  }

  /** `String.trim()`: strips leading and trailing characters `<= ' '`. */
  function Trim(s: string): (r: string)
    ensures |r| <= |s|
    ensures r != [] ==> !IsTrimmable(r[0]) && !IsTrimmable(r[|r| - 1])
  {
    TrimStartShape(s);
    TrimEndShape(TrimStart(s));
    TrimEnd(TrimStart(s))
  }

  /** The trimmed string is THE core of `s`: any infix `s[i..j]` that has only trimmable
      characters outside it and starts and ends with a kept character is what `Trim` returns. */
  lemma TrimIsCore(s: string, i: nat, j: nat)
    requires i <= j <= |s|
    requires forall k :: 0 <= k < i ==> IsTrimmable(s[k])
    requires forall k :: j <= k < |s| ==> IsTrimmable(s[k])
    requires i < j ==> !IsTrimmable(s[i]) && !IsTrimmable(s[j - 1])
    ensures Trim(s) == s[i..j]
  {
    var t := TrimStart(s);
    TrimStartShape(s);
    TrimEndShape(t);
    if i < j {
      assert t == s[i..];
      assert TrimEnd(t) == t[..j - i];
    }
  }

  /** A string with nothing to strip at either end is its own trim. */
  lemma TrimNoOp(s: string)
    requires s == [] || (!IsTrimmable(s[0]) && !IsTrimmable(s[|s| - 1]))
    ensures Trim(s) == s
  {
    TrimIsCore(s, 0, |s|);
    assert s[0..|s|] == s;
  }

  lemma TrimIdempotent(s: string)
    ensures Trim(Trim(s)) == Trim(s)
  {
    TrimNoOp(Trim(s));
  }

  /** A string made only of trimmable characters trims to "". */
  lemma TrimBlank(s: string)
    requires forall k :: 0 <= k < |s| ==> IsTrimmable(s[k])
    ensures Trim(s) == ""
  {
    TrimIsCore(s, 0, 0);
  }

  /** `String.replace(char, char)` (and `replace(",", ".")`, which does the same). */
  function ReplaceChar(s: string, from: char, to: char): (r: string)
    ensures |r| == |s|
    ensures forall k :: 0 <= k < |s| ==> r[k] == if s[k] == from then to else s[k]
  {
    if s == [] then [] else [if s[0] == from then to else s[0]] + ReplaceChar(s[1..], from, to)
  }

  lemma ReplaceCharAbsent(s: string, from: char, to: char)
    requires from !in s
    ensures ReplaceChar(s, from, to) == s
  {
  }

  /** `target` occurs in `s` at position `k`. */
  predicate OccursAt(s: string, target: string, k: nat) {
    k + |target| <= |s| && s[k..k + |target|] == target
  }

  ghost predicate Contains(s: string, target: string) {
    exists k: nat :: OccursAt(s, target, k)
  }

  /** `s.replace(target, "")`: every occurrence of `target`, scanning left to right and
      resuming after each match, is removed. */
  function RemoveAll(s: string, target: string): (r: string)
    requires target != []
    ensures |r| <= |s|
    decreases |s|
  {
    if |s| < |target| then s
    else if s[..|target|] == target then RemoveAll(s[|target|..], target)
    else [s[0]] + RemoveAll(s[1..], target)
  }

  /** Removing a target that does not occur leaves the string as it was. */
  lemma {:induction false} RemoveAllAbsent(s: string, target: string)
    requires target != []
    requires !Contains(s, target)
    ensures RemoveAll(s, target) == s
    decreases |s|
  {
    if |s| >= |target| {
      assert !OccursAt(s, target, 0);
      assert s[0..|target|] == s[..|target|];
      forall k: nat ensures !OccursAt(s[1..], target, k) {
        assert !OccursAt(s, target, k + 1);
        if k + |target| <= |s| - 1 {
          assert s[1..][k..k + |target|] == s[k + 1..k + 1 + |target|];
        }
      }
      RemoveAllAbsent(s[1..], target);
      assert s == [s[0]] + s[1..];
    }
  }
}
