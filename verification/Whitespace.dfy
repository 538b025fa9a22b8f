/** White space as Rust's text functions see it. */
module Whitespace {
  /** The Unicode property White_Space. */
  predicate IsWhite(c: char) {
    || 9 <= c as int <= 13 || c as int == 0x20 || c as int == 0x85 || c as int == 0xA0 || c as int == 0x1680
    || 0x2000 <= c as int <= 0x200A || c as int == 0x2028 || c as int == 0x2029 || c as int == 0x202F
    || c as int == 0x205F || c as int == 0x3000
  }

  predicate IsBlank(text: string) {
    forall i :: 0 <= i < |text| ==> IsWhite(text[i])
  }

  function TrimStart(text: string): (r: string)
    ensures |r| <= |text| && (r == [] || !IsWhite(r[0]))
  {
    if text == [] || !IsWhite(text[0]) then text else TrimStart(text[1..])
  }

  function TrimEnd(text: string): (r: string)
    ensures r <= text && (r == [] || !IsWhite(r[|r| - 1]))
  {
    if text == [] || !IsWhite(text[|text| - 1]) then text else TrimEnd(text[..|text| - 1])
  }

  function Trim(text: string): (r: string)
    ensures IsTrimmed(r)
  {
    TrimEnd(TrimStart(text))
  }

  /** No white space at either end. */
  predicate IsTrimmed(text: string) {
    text == [] || (!IsWhite(text[0]) && !IsWhite(text[|text| - 1]))
  }

  /** Trimming takes white space from both ends, and nothing else. */
  lemma TrimIsCut(text: string) returns (from: nat, to: nat)
    ensures from <= to <= |text| && Trim(text) == text[from..to]
    ensures IsBlank(text[..from]) && IsBlank(text[to..])
  {
    StartIsBlank(text);
    EndIsBlank(TrimStart(text));
    from := |text| - |TrimStart(text)|;
    to := from + |Trim(text)|;
    assert text[to..] == TrimStart(text)[|Trim(text)|..];
  }

  lemma {:induction false} StartIsBlank(text: string)
    ensures var n := |text| - |TrimStart(text)|; TrimStart(text) == text[n..] && IsBlank(text[..n])
  {
    if text != [] && IsWhite(text[0]) {
      StartIsBlank(text[1..]);
      var n := |text| - |TrimStart(text)|;
      assert text[..n] == [text[0]] + text[1..][..n - 1];
    }
  }

  lemma {:induction false} EndIsBlank(text: string)
    ensures IsBlank(text[|TrimEnd(text)|..])
  {
    if text != [] && IsWhite(text[|text| - 1]) {
      var front := text[..|text| - 1];
      EndIsBlank(front);
      var n := |TrimEnd(text)|;
      assert text[n..] == front[n..] + [text[|text| - 1]];
    }
  }
}
