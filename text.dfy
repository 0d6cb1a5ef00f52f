/** Header and cell text handling: `norm`, `String.trim` and `String.contains` as HealthService uses them. */
module Text {

  /** U+FEFF, the byte-order mark a UTF-8 export may carry in its first header. */
  const Bom: char := '\U{FEFF}'

  /** `String.trim` removes every leading and trailing char at or below U+0020. */
  predicate IsTrimmable(c: char) {
    c <= ' '
  }

  predicate IsUpperAscii(c: char) {
    'A' <= c <= 'Z'
  }

  predicate NoBom(s: string) {
    forall i :: 0 <= i < |s| ==> s[i] != Bom
  }

  predicate IsTrimmed(s: string) {
    s == [] || (!IsTrimmable(s[0]) && !IsTrimmable(s[|s| - 1]))
  }

  predicate NoUpper(s: string) {
    forall i :: 0 <= i < |s| ==> !IsUpperAscii(s[i])
  }

  /** `s.replace("﻿", "")`: every byte-order mark goes, everything else keeps its order. */
  function RemoveBom(s: string): string {
    if s == [] then []
    else if s[0] == Bom then RemoveBom(s[1..])
    else [s[0]] + RemoveBom(s[1..])
  }

  /** Leading half of `trim`: drop trimmable chars from the front. */
  function TrimLeft(s: string): string {
    if s != [] && IsTrimmable(s[0]) then TrimLeft(s[1..]) else s
  }

  /** Trailing half of `trim`: drop trimmable chars from the back. */
  function TrimRight(s: string): string {
    if s != [] && IsTrimmable(s[|s| - 1]) then TrimRight(s[..|s| - 1]) else s
  }

  /** `String.trim`. */
  function Trim(s: string): string {
    TrimRight(TrimLeft(s))
  }

  /** Lower-casing of one char under `Locale.ROOT`, for the ASCII letters. */
  function LowerChar(c: char): char {
    if IsUpperAscii(c) then (c as int + 32) as char else c
  }

  function ToLower(s: string): string {
    seq(|s|, i requires 0 <= i < |s| => LowerChar(s[i]))
  }

  /** `norm`: drop byte-order marks, trim, lower-case. */
  function Norm(s: string): string {
    ToLower(Trim(RemoveBom(s)))
  }

  /** Removing byte-order marks leaves none, and changes nothing in text that has none. */
  lemma {:induction false} RemoveBomShape(s: string)
    ensures NoBom(RemoveBom(s))
    ensures NoBom(s) ==> RemoveBom(s) == s
  {
    if s != [] {
      RemoveBomShape(s[1..]);
      assert NoBom(s) ==> NoBom(s[1..]);
    }
  }

  lemma {:induction false} TrimLeftShape(s: string)
    ensures |TrimLeft(s)| <= |s|
    ensures forall i :: 0 <= i < |TrimLeft(s)| ==> TrimLeft(s)[i] == s[|s| - |TrimLeft(s)| + i]
    ensures TrimLeft(s) == [] || !IsTrimmable(TrimLeft(s)[0])
  {
    if s != [] && IsTrimmable(s[0]) {
      TrimLeftShape(s[1..]);
    }
  }

  lemma {:induction false} TrimRightShape(s: string)
    ensures |TrimRight(s)| <= |s|
    ensures forall i :: 0 <= i < |TrimRight(s)| ==> TrimRight(s)[i] == s[i]
    ensures TrimRight(s) == [] || !IsTrimmable(TrimRight(s)[|TrimRight(s)| - 1])
    ensures s == [] || !IsTrimmable(s[|s| - 1]) ==> TrimRight(s) == s
  {
    if s != [] && IsTrimmable(s[|s| - 1]) {
      TrimRightShape(s[..|s| - 1]);
    }
  }

  /** `trim` leaves no trimmable char at either end, keeps only chars of its input, and is the identity on trimmed text. */
  lemma TrimShape(s: string)
    ensures IsTrimmed(Trim(s))
    ensures forall i :: 0 <= i < |Trim(s)| ==> Trim(s)[i] in s
    ensures IsTrimmed(s) ==> Trim(s) == s
  {
    var l := TrimLeft(s);
    TrimLeftShape(s);
    TrimRightShape(l);
    var r := TrimRight(l);
    forall i | 0 <= i < |r| ensures r[i] in s {
      assert r[i] == l[i] == s[|s| - |l| + i];
    }
    if r != [] {
      assert r[0] == l[0];
    }
    assert IsTrimmed(s) ==> l == s;
  }

  /** A normalised header carries no byte-order mark, no leading or trailing blank and no upper-case ASCII letter. */
  lemma NormShape(s: string)
    ensures NoBom(Norm(s)) && IsTrimmed(Norm(s)) && NoUpper(Norm(s))
  {
    var b := RemoveBom(s);
    RemoveBomShape(s);
    TrimShape(b);
    var t := Trim(b);
    assert NoBom(t) by {
      forall i | 0 <= i < |t| ensures t[i] != Bom {
        assert t[i] in b;
      }
    }
  }

  /** Normalising twice is normalising once: a normalised header matches itself exactly. */
  lemma NormIdempotent(s: string)
    ensures Norm(Norm(s)) == Norm(s)
  {
    var n := Norm(s);
    NormShape(s);
    RemoveBomShape(n);
    TrimShape(n);
    assert ToLower(n) == n;
  }

  /** `haystack.contains(needle)`: the needle occurs at some position (the empty needle everywhere). */
  predicate Contains(haystack: string, needle: string)
    decreases |haystack|
  {
    StartsWith(haystack, needle) || (haystack != [] && Contains(haystack[1..], needle))
  }

  predicate StartsWith(s: string, prefix: string) {
    |prefix| <= |s| && s[..|prefix|] == prefix
  }

  /** Every string contains itself: an exact match is also a substring match. */
  lemma ContainsSelf(s: string)
    ensures Contains(s, s)
  {
    assert StartsWith(s, s);
  }
}
