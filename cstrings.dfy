/**
 * NUL-terminated strings (misc_support.c).
 *
 * A C string is modelled by the bytes of its allocation, which include the terminator
 * (or, for an unterminated string, at least the bytes a bounded scan may look at).
 */
module CStrings {
  import opened Bytes

  /** Index of the first NUL at or after `from`, or `maxLen` if none of `str[from..maxLen]` is NUL. */
  function FindNul(str: seq<Byte>, from: nat, maxLen: nat): (r: nat)
    requires from <= maxLen && from <= |str|
    requires maxLen <= |str| || 0 in str[from..]
    ensures from <= r <= maxLen && r <= |str|
    ensures r < maxLen ==> r < |str| && str[r] == 0
    ensures forall i | from <= i < r :: str[i] != 0
    decreases maxLen - from
  {
    if from == maxLen then maxLen
    else if str[from] == 0 then from
    else
      assert str[from..] == [str[from]] + str[from + 1..];
      FindNul(str, from + 1, maxLen)
  }

  /**
   * `eaarlio_strnlen`: the length of `str`, examining at most `maxLen` bytes.  Memory must hold
   * `maxLen` bytes or a NUL, since only the bytes up to the first NUL or `maxLen` are read.
   */
  function StrNLen(str: seq<Byte>, maxLen: nat): (r: nat)
    requires maxLen <= |str| || 0 in str
    ensures r <= maxLen && r <= |str|
    ensures r < maxLen ==> r < |str| && str[r] == 0
    ensures forall i | 0 <= i < r :: str[i] != 0
  {
    FindNul(str, 0, maxLen)
  }

  /** A string whose allocation holds a terminator. */
  predicate Terminated(str: seq<Byte>)
  {
    0 in str
  }

  /** The characters of a terminated string, without the terminator. */
  function Content(str: seq<Byte>): (c: seq<Byte>)
    requires Terminated(str)
    ensures |c| < |str| && c == str[..|c|] && str[|c|] == 0
    ensures 0 !in c
  {
    var n := StrNLen(str, |str|);
    str[..n]
  }

  /** A string built from NUL-free characters plus a terminator has exactly those characters. */
  lemma ContentOfTerminated(chars: seq<Byte>)
    requires 0 !in chars
    ensures Terminated(chars + [0])
    ensures Content(chars + [0]) == chars
  {
    var s := chars + [0];
    assert s[|chars|] == 0;
    var n := StrNLen(s, |s|);
    assert n == |chars|;
  }
}
