/** White space as the two halves of the program see it, and trimming. */
module Whitespace {

  /** White space as the Unicode White_Space property has it; the bridge trims with it. */
  predicate BridgeSpace(c: char) {
    || '\t' <= c <= '\r' || c == ' ' || c == '\U{85}' || c == '\U{A0}' || c == '\U{1680}'
    || '\U{2000}' <= c <= '\U{200A}' || c == '\U{2028}' || c == '\U{2029}' || c == '\U{202F}'
    || c == '\U{205F}' || c == '\U{3000}'
  }

  /** White space and line terminators as ECMAScript's `trim` has them; the desktop trims with it. */
  predicate DesktopSpace(c: char) {
    (BridgeSpace(c) && c != '\U{85}') || c == '\U{FEFF}'
  }

  predicate BridgeBlank(s: string) {
    forall i :: 0 <= i < |s| ==> BridgeSpace(s[i])
  }

  predicate DesktopBlank(s: string) {
    forall i :: 0 <= i < |s| ==> DesktopSpace(s[i])
  }

  lemma BlankConcat(a: string, b: string)
    ensures DesktopBlank(a + b) <==> DesktopBlank(a) && DesktopBlank(b)
  {
    if DesktopBlank(a + b) {
      assert forall i :: 0 <= i < |a| ==> a[i] == (a + b)[i];
      assert forall i :: 0 <= i < |b| ==> b[i] == (a + b)[|a| + i];
    }
  }

  /** ECMAScript's `trim`. */
  function Trim(s: string): string {
    TrimEnd(TrimStart(s))
  }

  function TrimStart(s: string): string {
    if s != "" && DesktopSpace(s[0]) then TrimStart(s[1..]) else s
  }

  function TrimEnd(s: string): string {
    if s != "" && DesktopSpace(s[|s| - 1]) then TrimEnd(s[..|s| - 1]) else s
  }

  /** White space, then the trimmed text, then white space; and the trimmed text neither begins nor ends with any. */
  lemma {:induction false} TrimIsExact(s: string) returns (before: string, after: string)
    ensures s == before + Trim(s) + after && DesktopBlank(before) && DesktopBlank(after)
    ensures Trim(s) != "" ==> !DesktopSpace(Trim(s)[0]) && !DesktopSpace(Trim(s)[|Trim(s)| - 1])
  {
    hide DesktopSpace;
    before := TrimStartIsExact(s);
    after := TrimEndIsExact(TrimStart(s));
    assert s == before + (Trim(s) + after) == before + Trim(s) + after;
  }

  lemma {:induction false} TrimStartIsExact(s: string) returns (before: string)
    ensures s == before + TrimStart(s) && DesktopBlank(before)
    ensures TrimStart(s) != "" ==> !DesktopSpace(TrimStart(s)[0])
  {
    hide DesktopSpace;
    before := "";
    if s != "" && DesktopSpace(s[0]) {
      var more := TrimStartIsExact(s[1..]);
      before := [s[0]] + more;
    }
  }

  lemma {:induction false} TrimEndIsExact(s: string) returns (after: string)
    ensures s == TrimEnd(s) + after && DesktopBlank(after)
    ensures TrimEnd(s) != "" ==> TrimEnd(s)[0] == s[0] && !DesktopSpace(TrimEnd(s)[|TrimEnd(s)| - 1])
  {
    hide DesktopSpace;
    after := "";
    if s != "" && DesktopSpace(s[|s| - 1]) {
      var front := s[..|s| - 1];
      var more := TrimEndIsExact(front);
      after := more + [s[|s| - 1]];
      assert s == front + [s[|s| - 1]];
    }
  }
}
