/**
 * Go strings as the model sees them: a Go `string` is an immutable sequence
 * of bytes, and `len` counts bytes. Each byte is represented by the `char`
 * whose code is that byte value, so ASCII text can be written as a Dafny
 * string literal and `|s|` is Go's `len(s)`.
 */
module GoStrings {

  /** One byte of a Go string. */
  type Byte = c: char | c as int < 256

  type GoString = seq<Byte>

  /** `strings.HasSuffix`: `s` is some string followed by `suffix`. */
  predicate HasSuffix(s: GoString, suffix: GoString): (b: bool)
    ensures b <==> exists p :: p + suffix == s
  {
    TailIsSuffix(s, suffix);
    |suffix| <= |s| && s[|s| - |suffix|..] == suffix
  }

  lemma TailIsSuffix(s: GoString, suffix: GoString)
    ensures (|suffix| <= |s| && s[|s| - |suffix|..] == suffix) <==> exists p :: p + suffix == s
  {
    if |suffix| <= |s| && s[|s| - |suffix|..] == suffix {
      assert s[..|s| - |suffix|] + suffix == s;
    }
    if p :| p + suffix == s {
      assert s[|p|..] == suffix;
    }
  }

  /** `strings.TrimSuffix`: `s` without one trailing `suffix`, or `s` itself. */
  function TrimSuffix(s: GoString, suffix: GoString): (r: GoString)
    ensures HasSuffix(s, suffix) ==> r + suffix == s
    ensures !HasSuffix(s, suffix) ==> r == s
  {
    if HasSuffix(s, suffix) then s[..|s| - |suffix|] else s
  }
}
