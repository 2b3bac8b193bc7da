/** The C string semantics that fix what the fixed-width buffers of a cache record hold.
    A `char` stands for one byte. */
module CStrings {

  const NUL: char := '\0'

  /** What a reader of `s.c_str()` sees: everything before the first NUL. */
  function CStr(s: string): (r: string)
    ensures |r| <= |s| && r == s[..|r|] && NUL !in r
    ensures |r| < |s| ==> s[|r|] == NUL
  {
    if s == [] || s[0] == NUL then [] else [s[0]] + CStr(s[1..])
  }

  /** `CStr` is the only NUL-free prefix that stops at a NUL or at the end. */
  lemma {:induction false} CStrUnique(s: string, n: nat)
    requires n <= |s| && NUL !in s[..n]
    requires n < |s| ==> s[n] == NUL
    ensures CStr(s) == s[..n]
  {
    if n > 0 {
      assert s[0] in s[..n];
      assert forall c :: c in s[1..][..n - 1] ==> c in s[..n];
      CStrUnique(s[1..], n - 1);
      assert s[..n] == [s[0]] + s[1..][..n - 1];
    }
  }

  lemma CStrOfNulFree(s: string)
    requires NUL !in s
    ensures CStr(s) == s
  {
    assert s[..|s|] == s;
    CStrUnique(s, |s|);
  }

  /** The text that survives `strncpy` into a cleared buffer of `width` bytes whose last byte stays NUL. */
  function Stored(src: string, width: nat): (r: string)
    requires width > 0
    ensures NUL !in r && |r| < width
  {
    var c := CStr(src);
    if |c| < width then c else c[..width - 1]
  }

  /** A buffer of `width` bytes holds a text that fits beside its terminator as it is, and of a longer one
      the first `width - 1` characters. */
  predicate HoldsText(stored: string, text: string, width: nat)
    requires width > 0
  {
    if |CStr(text)| < width then stored == CStr(text) else stored == CStr(text)[..width - 1]
  }

  /** Storing loses nothing exactly when the text fits beside its terminator; storing twice is storing once. */
  lemma StoredFaithful(src: string, width: nat)
    requires width > 0
    ensures Stored(src, width) == CStr(src) <==> |CStr(src)| < width
    ensures CStr(Stored(src, width)) == Stored(src, width)
    ensures Stored(Stored(src, width), width) == Stored(src, width)
  {
    CStrOfNulFree(Stored(src, width));
  }

  /** memset the buffer, copy at most `width - 1` bytes, terminate. */
  method FillBuffer(width: nat, src: string) returns (buf: array<char>)
    requires width > 0
    ensures fresh(buf) && buf.Length == width && buf[width - 1] == NUL
    ensures CStr(buf[..]) == Stored(src, width) && HoldsText(CStr(buf[..]), src, width)
  {
    buf := new char[width];
    var i := 0;
    while i < width
      invariant i <= width
      invariant forall k :: 0 <= k < i ==> buf[k] == NUL
    {
      buf[i] := NUL;
      i := i + 1;
    }
    i := 0;
    while i < width - 1 && i < |src| && src[i] != NUL
      invariant i <= width - 1 && i <= |src|
      invariant forall k :: 0 <= k < i ==> buf[k] == src[k] != NUL
      invariant forall k :: i <= k < width ==> buf[k] == NUL
    {
      buf[i] := src[i];
      i := i + 1;
    }
    buf[width - 1] := NUL;
    CopiedIsStored(src, buf[..], i);
  }

  lemma CopiedIsStored(src: string, buf: seq<char>, n: nat)
    requires n < |buf| && n <= |src| && buf[n] == NUL
    requires forall k :: 0 <= k < n ==> buf[k] == src[k] != NUL
    requires n < |buf| - 1 && n < |src| ==> src[n] == NUL
    ensures CStr(buf) == Stored(src, |buf|)
  {
    assert buf[..n] == src[..n];
    CStrUnique(buf, n);
    if n < |buf| - 1 {
      CStrUnique(src, n);
    } else {
      var c := CStr(src);
      assert |c| >= n;
      assert c[..n] == src[..n];
    }
  }
}
