/** The text checks the source writes as regular expressions. */
module SafeText {
  predicate IsDigit(c: char) { '0' <= c <= '9' }

  predicate IsAlphanumeric(c: char) { IsDigit(c) || 'a' <= c <= 'z' || 'A' <= c <= 'Z' }

  predicate IsHex(c: char) { IsDigit(c) || 'a' <= c <= 'f' || 'A' <= c <= 'F' }

  predicate IsLowerHex(c: char) { IsDigit(c) || 'a' <= c <= 'f' }

  predicate IsKeyTail(c: char) { IsAlphanumeric(c) || c == '_' || c == '-' }

  /** 0x and 64 hexadecimal digits: an object identity, never a semantic key. */
  predicate LooksLikeObjectId(s: string) {
    |s| == 66 && s[0] == '0' && s[1] == 'x' && forall i :: 2 <= i < 66 ==> IsHex(s[i])
  }

  predicate IsSafeKey(s: string, maximum: nat) {
    && 0 < |s| <= maximum && IsAlphanumeric(s[0])
    && (forall i :: 0 <= i < |s| ==> IsKeyTail(s[i]))
    && !LooksLikeObjectId(s)
  }

  /** /^[0-9a-f]{64}$/ */
  predicate IsHash(s: string) { |s| == 64 && forall i :: 0 <= i < 64 ==> IsLowerHex(s[i]) }

  /** What String.prototype.trim removes. */
  predicate IsSpace(c: char) {
    || c == ' ' || '\t' <= c <= '\r' || c == '\U{A0}' || c == '\U{1680}' || '\U{2000}' <= c <= '\U{200A}'
    || c == '\U{2028}' || c == '\U{2029}' || c == '\U{202F}' || c == '\U{205F}' || c == '\U{3000}' || c == '\U{FEFF}'
  }

  predicate IsNonEmptyText(s: string, maximum: nat) {
    |s| <= maximum && exists i :: 0 <= i < |s| && !IsSpace(s[i])
  }

  /** The bytes TextEncoder writes. */
  function Utf8Bytes(c: char): nat {
    if c as int < 0x80 then 1 else if c as int < 0x800 then 2 else if c as int < 0x1_0000 then 3 else 4
  }

  function Utf8Length(s: string): nat { if s == "" then 0 else Utf8Bytes(s[0]) + Utf8Length(s[1..]) }

  lemma {:induction false} AsciiLength(s: string)
    requires forall k :: 0 <= k < |s| ==> s[k] as int < 0x80
    ensures Utf8Length(s) == |s|
  {
    if s != "" { AsciiLength(s[1..]); }
  }
}
