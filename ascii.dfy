/** Bytes, their reading as ASCII text, and Rust's `str::trim` on ASCII text. */
module Ascii {
  import opened Wrappers

  /** One byte of the NITF buffer. */
  type Byte = b: int | 0 <= b < 256

  /** A field map: the decoder's `BTreeMap<String, String>`. */
  type FieldMap = map<string, string>

  /** The entry a field map holds under `key`, if any. */
  function Lookup(m: FieldMap, key: string): Option<string>
  {
    if key in m then Some(m[key]) else None
  }

  predicate IsAscii(b: Byte) { b < 128 }

  /** Bytes [lo, hi) of `buf` are ASCII, so `String::from_utf8` accepts them and
      each byte is one character. */
  predicate AsciiSpan(buf: seq<Byte>, lo: int, hi: int)
    requires 0 <= lo <= hi <= |buf|
  {
    forall i :: lo <= i < hi ==> IsAscii(buf[i])
  }

  /** The string `String::from_utf8` makes of ASCII bytes: one character per byte. */
  function Text(s: seq<Byte>): string
  {
    seq(|s|, i requires 0 <= i < |s| => s[i] as char)
  }

  /** Characters `trim` removes, restricted to ASCII: tab, line feed, vertical tab,
      form feed, carriage return and space. */
  predicate IsSpace(c: char) { c == ' ' || '\t' <= c <= '\r' }

  predicate Blank(s: string) { forall i :: 0 <= i < |s| ==> IsSpace(s[i]) }

  function TrimStart(s: string): (r: string)
    ensures |r| <= |s|
  {
    if |s| > 0 && IsSpace(s[0]) then TrimStart(s[1..]) else s
  }

  function TrimEnd(s: string): (r: string)
    ensures |r| <= |s|
  {
    if |s| > 0 && IsSpace(s[|s| - 1]) then TrimEnd(s[..|s| - 1]) else s
  }

  /** `s.trim()`: leading and trailing whitespace removed. */
  function Trim(s: string): string
  {
    TrimEnd(TrimStart(s))
  }

  /** TrimStart removes a prefix, and only whitespace, and stops at a non-space. */
  lemma {:induction false} TrimStartSuffix(s: string)
    ensures |TrimStart(s)| <= |s|
    ensures TrimStart(s) == s[|s| - |TrimStart(s)|..]
    ensures Blank(s[..|s| - |TrimStart(s)|])
    ensures TrimStart(s) != [] ==> !IsSpace(TrimStart(s)[0])
  {
    if |s| > 0 && IsSpace(s[0]) {
      TrimStartSuffix(s[1..]);
      var k := |s| - |TrimStart(s)|;
      assert s[1..][..k - 1] == s[1..k];
      assert forall i :: 1 <= i < k ==> s[i] == s[1..k][i - 1];
    }
  }

  /** TrimEnd removes a suffix, and only whitespace, and stops at a non-space. */
  lemma {:induction false} TrimEndPrefix(s: string)
    ensures |TrimEnd(s)| <= |s|
    ensures TrimEnd(s) == s[..|TrimEnd(s)|]
    ensures Blank(s[|TrimEnd(s)|..])
    ensures TrimEnd(s) != [] ==> !IsSpace(TrimEnd(s)[|TrimEnd(s)| - 1])
  {
    if |s| > 0 && IsSpace(s[|s| - 1]) {
      var t := s[..|s| - 1];
      TrimEndPrefix(t);
      var k := |TrimEnd(s)|;
      assert t[k..] + [s[|s| - 1]] == s[k..];
    }
  }

  /** A slot counts as empty for the optional-field test exactly when it is blank. */
  lemma TrimEmptyIffBlank(s: string)
    ensures Trim(s) == [] <==> Blank(s)
  {
    TrimStartSuffix(s);
    var t := TrimStart(s);
    TrimEndPrefix(t);
    var k := |s| - |t|;
    if Trim(s) == [] {
      assert t == [];
      assert s[..k] == s;
    } else {
      assert !IsSpace(t[0]);
      assert !IsSpace(s[k]);
    }
  }

  /** Where the trimmed text starts within the untrimmed text. */
  function TrimOffset(s: string): nat
  {
    |s| - |TrimStart(s)|
  }

  /** Trim yields a contiguous piece of its input with no whitespace at either end. */
  lemma TrimSlice(s: string)
    ensures TrimOffset(s) + |Trim(s)| <= |s|
    ensures Trim(s) == s[TrimOffset(s)..TrimOffset(s) + |Trim(s)|]
    ensures Trim(s) != [] ==> !IsSpace(Trim(s)[0]) && !IsSpace(Trim(s)[|Trim(s)| - 1])
  {
    TrimStartSuffix(s);
    var t := TrimStart(s);
    TrimEndPrefix(t);
    var a := TrimOffset(s);
    assert Trim(s) == s[a..a + |Trim(s)|];
  }

  /** Text of a sub-slice is the same sub-slice of the text. */
  lemma TextSlice(s: seq<Byte>, lo: int, hi: int)
    requires 0 <= lo <= hi <= |s|
    ensures Text(s[lo..hi]) == Text(s)[lo..hi]
  {
  }

  lemma TextConcat(a: seq<Byte>, b: seq<Byte>)
    ensures Text(a + b) == Text(a) + Text(b)
  {
  }
}
