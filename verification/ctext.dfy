/**
 C strings over `seq<char>`: the terminator, `strlen`, and `strstr` as a
 first-occurrence search. A character stands for one byte.
 */
module CText {

  datatype Option<T> = None | Some(value: T)

  const NUL: char := '\0'

  /** The characters of a C string: no terminator among them. */
  predicate NulFree(s: seq<char>) {
    NUL !in s
  }

  /** `strlen`: the index of the first NUL. A buffer without one has no length. */
  function StrLen(buf: seq<char>): (n: nat)
    requires NUL in buf
    ensures n < |buf| && buf[n] == NUL
    ensures NulFree(buf[..n])
  {
    if buf[0] == NUL then 0
    else
      assert NUL in buf[1..] by {
        var k :| 0 <= k < |buf| && buf[k] == NUL;
        assert buf[1..][k - 1] == NUL;
      }
      var n := StrLen(buf[1..]);
      assert buf[..n + 1] == [buf[0]] + buf[1..][..n];
      1 + n
  }

  /** The string a buffer holds: everything before its first NUL. */
  function CStr(buf: seq<char>): (s: seq<char>)
    requires NUL in buf
    ensures NulFree(s) && |s| < |buf|
    ensures buf == s + [NUL] + buf[|s| + 1..]
  {
    var n := StrLen(buf);
    assert buf == buf[..n] + [buf[n]] + buf[n + 1..];
    buf[..n]
  }

  /** What follows the first NUL never reaches a C string function. */
  lemma CStrOfTerminated(s: seq<char>, rest: seq<char>)
    requires NulFree(s)
    ensures CStr(s + [NUL] + rest) == s
  {
    var buf := s + [NUL] + rest;
    assert buf[|s|] == NUL;
  }

  /** `needle` occurs in `hay` starting at index `i`. */
  predicate OccursAt(needle: seq<char>, hay: seq<char>, i: nat) {
    i + |needle| <= |hay| && hay[i..i + |needle|] == needle
  }

  /** `needle` is a substring of `hay`. */
  predicate Contains(hay: seq<char>, needle: seq<char>) {
    exists i: nat :: i <= |hay| && OccursAt(needle, hay, i)
  }

  /** `i` is the first position at which `needle` occurs in `hay`. */
  predicate FirstAt(hay: seq<char>, needle: seq<char>, i: nat) {
    OccursAt(needle, hay, i) && forall j: nat :: j < i ==> !OccursAt(needle, hay, j)
  }

  /** Left-to-right scan for `needle` from position `from` on. */
  function FindFrom(hay: seq<char>, needle: seq<char>, from: nat): (r: Option<nat>)
    requires from <= |hay|
    decreases |hay| - from
    ensures r.Some? ==> from <= r.value && OccursAt(needle, hay, r.value)
    ensures r.Some? ==> forall j: nat :: from <= j < r.value ==> !OccursAt(needle, hay, j)
    ensures r.None? ==> forall j: nat :: from <= j ==> !OccursAt(needle, hay, j)
  {
    if OccursAt(needle, hay, from) then Some(from)
    else if from + |needle| >= |hay| then None
    else FindFrom(hay, needle, from + 1)
  }

  /**
   `strstr(buf, needle)`: the index in `buf` of the first occurrence of
   `needle` in the string `buf` holds, or None for a null pointer.
   */
  function StrStr(buf: seq<char>, needle: seq<char>): (r: Option<nat>)
    requires NUL in buf
    ensures r.None? <==> !Contains(CStr(buf), needle)
    ensures r.Some? ==> FirstAt(CStr(buf), needle, r.value)
  {
    FindFrom(CStr(buf), needle, 0)
  }

  /** A first occurrence is unique. */
  lemma FirstAtUnique(hay: seq<char>, needle: seq<char>, i: nat, j: nat)
    requires FirstAt(hay, needle, i) && FirstAt(hay, needle, j)
    ensures i == j
  {
  }
}
