/** Rune text: blank trimming and lower-casing as Go's strings package does them. */
module Text {

  /** unicode.IsSpace. */
  predicate IsSpace(c: char) {
    var n := c as int;
    || 9 <= n <= 13 || n == 0x20 || n == 0x85 || n == 0xA0 || n == 0x1680
    || 0x2000 <= n <= 0x200A || n == 0x2028 || n == 0x2029 || n == 0x202F || n == 0x205F || n == 0x3000
  }

  /** What is left when all leading and trailing spaces are taken away. */
  function TrimSpace(s: string): string {
    if s == "" then ""
    else if IsSpace(s[0]) then TrimSpace(s[1..])
    else if IsSpace(s[|s| - 1]) then TrimSpace(s[..|s| - 1])
    else s
  }

  ghost predicate AllSpace(s: string) {
    forall i :: 0 <= i < |s| ==> IsSpace(s[i])
  }

  lemma TrimStep(s: string)
    ensures s == "" ==> TrimSpace(s) == ""
    ensures s != "" && IsSpace(s[0]) ==> TrimSpace(s) == TrimSpace(s[1..])
    ensures s != "" && !IsSpace(s[0]) && IsSpace(s[|s| - 1]) ==> TrimSpace(s) == TrimSpace(s[..|s| - 1])
    ensures s != "" && !IsSpace(s[0]) && !IsSpace(s[|s| - 1]) ==> TrimSpace(s) == s
  {
  }

  /** TrimSpace(s) is the part of `s` between two runs of spaces, and neither begins
      nor ends with a space. */
  lemma {:induction false} TrimSpaceCuts(s: string) returns (before: string, after: string)
    ensures s == before + TrimSpace(s) + after && AllSpace(before) && AllSpace(after)
    ensures var r := TrimSpace(s); r != "" ==> !IsSpace(r[0]) && !IsSpace(r[|r| - 1])
  {
    hide IsSpace, TrimSpace;
    TrimStep(s);
    before, after := "", "";
    if s != "" && IsSpace(s[0]) {
      var inner;
      inner, after := TrimSpaceCuts(s[1..]);
      before := [s[0]] + inner;
      assert s == [s[0]] + (inner + TrimSpace(s) + after) == before + TrimSpace(s) + after;
    } else if s != "" && IsSpace(s[|s| - 1]) {
      var n, inner := |s| - 1, "";
      before, inner := TrimSpaceCuts(s[..n]);
      after := inner + [s[n]];
      assert s == (before + TrimSpace(s) + inner) + [s[n]] == before + TrimSpace(s) + after;
    }
  }

  lemma BlankIffAllSpace(s: string)
    ensures TrimSpace(s) == "" <==> AllSpace(s)
  {
    hide TrimSpace, IsSpace;
    var before, after := TrimSpaceCuts(s);
    if TrimSpace(s) != "" { assert s[|before|] == TrimSpace(s)[0]; }
  }

  /** strings.ToLower maps rune by rune; `lower` is unicode.ToLower. */
  function ToLower(s: string, lower: char -> char): (r: string)
    ensures |r| == |s| && forall i :: 0 <= i < |s| ==> r[i] == lower(s[i])
  {
    seq(|s|, i requires 0 <= i < |s| => lower(s[i]))
  }

  /** `w` occurs in `s` at position `p`. */
  predicate OccursAt(s: string, w: string, p: nat) {
    p + |w| <= |s| && s[p..p + |w|] == w
  }

  predicate Contains(s: string, w: string) {
    exists p :: 0 <= p <= |s| && OccursAt(s, w, p)
  }

  function Concat(parts: seq<string>): string {
    if parts == [] then "" else Concat(parts[..|parts| - 1]) + parts[|parts| - 1]
  }

  lemma ConcatSnoc(parts: seq<string>, part: string)
    ensures Concat(parts + [part]) == Concat(parts) + part
  {
    assert (parts + [part])[..|parts|] == parts;
  }
}
