/** Keyword moderation and the streaming output filter: text is buffered into
    segments, each checked together with an overlap of what was already emitted. */
module Moderation {
  import opened Text

  // ---- policies ----

  /** Normalised banned words; blank entries were dropped. */
  type BannedWords = ws: seq<string> | "" !in ws

  /** `lower` is unicode.ToLower. */
  datatype KeywordPolicy = KeywordPolicy(banned: BannedWords, lower: char -> char)

  function Normalize(words: seq<string>, lower: char -> char): BannedWords {
    if words == [] then []
    else
      var rest := Normalize(words[..|words| - 1], lower);
      var w := ToLower(TrimSpace(words[|words| - 1]), lower);
      if w == "" then rest else rest + [w]
  }

  method NewKeywordPolicy(words: seq<string>, lower: char -> char) returns (p: KeywordPolicy)
    ensures p == KeywordPolicy(Normalize(words, lower), lower)
  {
    var normalized: BannedWords := [];
    for i := 0 to |words|
      invariant normalized == Normalize(words[..i], lower)
    {
      assert words[..i + 1][..i] == words[..i];
      var w := ToLower(TrimSpace(words[i]), lower);
      if w != "" { normalized := normalized + [w]; }
    }
    assert words[..|words|] == words;
    return KeywordPolicy(normalized, lower);
  }

  /** The one-shot check: some banned word occurs in the lower-cased text. */
  predicate Hits(p: KeywordPolicy, text: string) {
    exists i :: 0 <= i < |p.banned| && Contains(ToLower(text, p.lower), p.banned[i])
  }

  method Allowed(p: KeywordPolicy, text: string) returns (ok: bool)
    ensures ok == !Hits(p, text)
  {
    var lower := ToLower(text, p.lower);
    for i := 0 to |p.banned|
      invariant forall j :: 0 <= j < i ==> !Contains(lower, p.banned[j])
    {
      if Contains(lower, p.banned[i]) { return false; }
    }
    return true;
  }

  /** A policy made from `words` refuses a text exactly when some entry that is not
      blank occurs in it, surrounding blanks and case aside. */
  lemma {:induction false} PolicyHitsItsWords(words: seq<string>, lower: char -> char, text: string)
    ensures Hits(KeywordPolicy(Normalize(words, lower), lower), text) <==>
            exists i :: 0 <= i < |words| && TrimSpace(words[i]) != "" &&
                        Contains(ToLower(text, lower), ToLower(TrimSpace(words[i]), lower))
  {
    hide TrimSpace, Contains;
    if words != [] {
      var n := |words| - 1;
      PolicyHitsItsWords(words[..n], lower, text);
      var before, after := Normalize(words[..n], lower), Normalize(words, lower);
      var w := ToLower(TrimSpace(words[n]), lower);
      assert w == "" <==> TrimSpace(words[n]) == "";
      assert forall i :: 0 <= i < |before| ==> after[i] == before[i];
      assert w != "" ==> after[|before|] == w;
    }
  }

  datatype Moderator = AllowAll | PolicyModerator(policy: KeywordPolicy, inputFallback: string, outputFallback: string)

  predicate Refuses(m: Moderator, text: string) {
    m.PolicyModerator? && Hits(m.policy, text)
  }

  function CheckInput(m: Moderator, text: string): (bool, string) {
    if Refuses(m, text) then (false, m.inputFallback) else (true, "")
  }

  function CheckOutput(m: Moderator, text: string): (bool, string) {
    if Refuses(m, text) then (false, m.outputFallback) else (true, "")
  }

  // ---- cutting text into segments ----

  predicate IsTerminator(c: char) {
    c in ['\U{3002}', '\U{FF01}', '\U{FF1F}', '.', '!', '?', '\n']
  }

  predicate IsTokenSpace(c: char) {
    c == ' ' || c == '\t'
  }

  /** How many code points fit in n bytes of UTF-8: 7 bits in one byte, else 7 - n in
      the first and 6 in each of the others. */
  function Utf8Capacity(n: nat): nat {
    if n <= 1 then 0x80 else if n == 2 then 0x800 else 32 * Utf8Capacity(n - 1)
  }

  /** The least number of bytes that the rune fits in. */
  function Utf8Width(c: char): (w: nat)
    ensures 1 <= w <= 4 && c as int < Utf8Capacity(w) && (w > 1 ==> Utf8Capacity(w - 1) <= c as int)
  {
    assert Utf8Capacity(3) == 0x10000;
    assert Utf8Capacity(4) == 0x200000;
    var n := c as int;
    if n < 0x80 then 1 else if n < 0x800 then 2 else if n < 0x10000 then 3 else 4
  }

  function Utf8Len(s: string): nat {
    if s == "" then 0 else Utf8Len(s[..|s| - 1]) + Utf8Width(s[|s| - 1])
  }

  function LastIndex(s: string, p: char -> bool): (i: int)
    ensures -1 <= i < |s|
    ensures i >= 0 ==> p(s[i])
    ensures forall j :: i < j < |s| ==> !p(s[j])
  {
    if s == "" then -1
    else if p(s[|s| - 1]) then |s| - 1
    else LastIndex(s[..|s| - 1], p)
  }

  /** The index just past the last terminator, or -1. */
  function CutAtLastTerminator(text: string): int {
    var i := LastIndex(text, IsTerminator);
    if i < 0 then -1 else i + 1
  }

  function LastRunes(s: string, n: nat): string {
    if |s| <= n then s else s[|s| - n..]
  }

  /** The tail is the unfinished last token: unbroken, and preceded by a space. It
      is empty only if the text ends in a space or has none after its first rune. */
  function SplitKeepingLastToken(text: string): (r: (string, string))
    ensures r.0 + r.1 == text
    ensures forall i :: 0 <= i < |r.1| ==> !IsTokenSpace(r.1[i])
    ensures r.1 != "" ==> r.0 != "" && IsTokenSpace(r.0[|r.0| - 1])
    ensures r.1 == "" && text != "" ==>
              IsTokenSpace(text[|text| - 1]) || forall i :: 0 < i < |text| ==> !IsTokenSpace(text[i])
  {
    var i := LastIndex(text, IsTokenSpace);
    if 0 < i < |text| - 1 then (text[..i + 1], text[i + 1..]) else (text, "")
  }

  // ---- the filter ----

  datatype Settings = Settings(mod: Moderator, maxSegmentBytes: nat, overlapRunes: nat)

  const DEFAULT_MAX_SEGMENT_BYTES: nat := 512
  const DEFAULT_OVERLAP_RUNES: nat := 32

  datatype Filter = Filter(buf: string, overlap: string, blocked: bool)

  const FRESH := Filter("", "", false)

  datatype Outcome = Outcome(emit: string, blocked: bool, fallback: string)

  /** How drain divides a nonempty buffer into the segment to moderate now and
      the remainder to keep; an empty segment means wait for more. */
  function Segment(c: Settings, text: string, final: bool): (r: (string, string))
    ensures r.0 + r.1 == text
  {
    var cut := CutAtLastTerminator(text);
    if final then (text, "")
    else if cut >= 0 then (text[..cut], text[cut..])
    else if Utf8Len(text) >= c.maxSegmentBytes then SplitKeepingLastToken(text)
    else ("", text)
  }

  function Drain(c: Settings, f: Filter, final: bool): (Filter, Outcome) {
    var (segment, remainder) := Segment(c, f.buf, final);
    if segment == "" then (f, Outcome("", false, ""))
    else
      var (allowed, fallback) := CheckOutput(c.mod, f.overlap + segment);
      if !allowed then (Filter("", "", true), Outcome("", true, fallback))
      else (Filter(remainder, LastRunes(f.overlap + segment, c.overlapRunes), false), Outcome(segment, false, ""))
  }

  function Push(c: Settings, f: Filter, delta: string): (Filter, Outcome) {
    if f.blocked then (f, Outcome("", true, "")) else Drain(c, f.(buf := f.buf + delta), false)
  }

  function Flush(c: Settings, f: Filter): (Filter, Outcome) {
    if f.blocked then (f, Outcome("", true, "")) else Drain(c, f, true)
  }

  class OutputFilter {
    const cfg: Settings
    var buf: string
    var overlap: string
    var blocked: bool

    function Value(): Filter
      reads this
    {
      Filter(buf, overlap, blocked)
    }

    constructor (c: Settings)
      ensures cfg == c && Value() == FRESH
    {
      cfg, buf, overlap, blocked := c, "", "", false;
    }

    method PushDelta(delta: string) returns (o: Outcome)
      modifies this
      ensures (Value(), o) == Push(cfg, old(Value()), delta)
    {
      if blocked { return Outcome("", true, ""); }
      buf := buf + delta;
      o := DrainBuffer(false);
    }

    method FlushRest() returns (o: Outcome)
      modifies this
      ensures (Value(), o) == Flush(cfg, old(Value()))
    {
      if blocked { return Outcome("", true, ""); }
      o := DrainBuffer(true);
    }

    method DrainBuffer(final: bool) returns (o: Outcome)
      requires !blocked
      modifies this
      ensures (Value(), o) == Drain(cfg, old(Value()), final)
    {
      var text := buf;
      if text == "" { return Outcome("", false, ""); }
      var segment, remainder;
      var cut := CutAtLastTerminator(text);
      if final {
        segment, remainder := text, "";
      } else if cut >= 0 {
        segment, remainder := text[..cut], text[cut..];
      } else if Utf8Len(text) >= cfg.maxSegmentBytes {
        var split := SplitKeepingLastToken(text);
        segment, remainder := split.0, split.1;
      } else {
        return Outcome("", false, "");
      }
      var check := CheckOutput(cfg.mod, overlap + segment);
      if !check.0 {
        blocked, buf, overlap := true, "", "";
        return Outcome("", true, check.1);
      }
      overlap := LastRunes(overlap + segment, cfg.overlapRunes);
      buf := remainder;
      return Outcome(segment, false, "");
    }
  }

  // ---- whole streams ----

  /** The filter after a sequence of deltas, and everything it emitted. */
  function Pushed(c: Settings, deltas: seq<string>): (Filter, string) {
    if deltas == [] then (FRESH, "")
    else
      var (f, emitted) := Pushed(c, deltas[..|deltas| - 1]);
      var (f', o) := Push(c, f, deltas[|deltas| - 1]);
      (f', emitted + o.emit)
  }

  /** Whether the stream ends blocked, and what it emitted in all. */
  function Verdict(c: Settings, deltas: seq<string>): (bool, string) {
    var (f, emitted) := Pushed(c, deltas);
    var (f', o) := Flush(c, f);
    (f'.blocked, emitted + o.emit)
  }

  /** No banned word short enough for the overlap occurs in `text`. */
  ghost predicate Clean(c: Settings, text: string) {
    c.mod.PolicyModerator? ==>
      forall i :: 0 <= i < |c.mod.policy.banned| && |c.mod.policy.banned[i]| <= c.overlapRunes + 1 ==>
        !Contains(ToLower(text, c.mod.policy.lower), c.mod.policy.banned[i])
  }

  /** Every banned word is short enough for the overlap. */
  ghost predicate ShortWords(c: Settings) {
    c.mod.PolicyModerator? ==>
      forall i :: 0 <= i < |c.mod.policy.banned| ==> |c.mod.policy.banned[i]| <= c.overlapRunes + 1
  }

  lemma ContainsInside(s: string, w: string, before: string, after: string, lower: char -> char)
    requires Contains(ToLower(s, lower), w)
    ensures Contains(ToLower(before + s + after, lower), w)
  {
    var p :| 0 <= p <= |s| && OccursAt(ToLower(s, lower), w, p);
    var whole := ToLower(before + s + after, lower);
    assert whole[|before| + p..|before| + p + |w|] == ToLower(s, lower)[p..p + |w|];
    assert OccursAt(whole, w, |before| + p);
  }

  lemma HitInside(c: Settings, s: string, before: string, after: string)
    requires Refuses(c.mod, s)
    ensures Refuses(c.mod, before + s + after)
  {
    var p := c.mod.policy;
    var i :| 0 <= i < |p.banned| && Contains(ToLower(s, p.lower), p.banned[i]);
    ContainsInside(s, p.banned[i], before, after, p.lower);
  }

  /** A short word that is in neither the emitted text nor the overlap with the
      new segment is not in the two together. */
  lemma NoStraddle(emitted: string, segment: string, w: string, n: nat, lower: char -> char)
    requires |w| <= n + 1
    requires !Contains(ToLower(emitted, lower), w)
    requires !Contains(ToLower(LastRunes(emitted, n) + segment, lower), w)
    ensures !Contains(ToLower(emitted + segment, lower), w)
  {
    hide OccursAt, LastRunes;
    var whole := ToLower(emitted + segment, lower);
    var overlap := LastRunes(emitted, n);
    OverlapIsSuffix(emitted, n);
    var before := emitted[..|emitted| - |overlap|];
    assert emitted + segment == before + (overlap + segment);
    forall p | 0 <= p <= |whole| ensures !OccursAt(whole, w, p) {
      if p + |w| <= |emitted| {
        OccursInFirst(emitted, segment, w, p, lower);
      } else {
        OccursInSecond(before, overlap + segment, w, p, lower);
      }
    }
  }

  lemma OccursInFirst(a: string, b: string, w: string, p: nat, lower: char -> char)
    requires p + |w| <= |a|
    ensures OccursAt(ToLower(a + b, lower), w, p) ==> Contains(ToLower(a, lower), w)
  {
    assert ToLower(a + b, lower)[p..p + |w|] == ToLower(a, lower)[p..p + |w|];
    assert OccursAt(ToLower(a + b, lower), w, p) ==> OccursAt(ToLower(a, lower), w, p);
  }

  lemma OccursInSecond(a: string, b: string, w: string, p: nat, lower: char -> char)
    requires |a| <= p
    ensures OccursAt(ToLower(a + b, lower), w, p) ==> Contains(ToLower(b, lower), w)
  {
    if OccursAt(ToLower(a + b, lower), w, p) {
      assert ToLower(a + b, lower)[p..p + |w|] == ToLower(b, lower)[p - |a|..p - |a| + |w|];
      assert OccursAt(ToLower(b, lower), w, p - |a|);
    }
  }

  lemma SegmentKeepsClean(c: Settings, emitted: string, segment: string)
    requires Clean(c, emitted) && !Refuses(c.mod, LastRunes(emitted, c.overlapRunes) + segment)
    ensures Clean(c, emitted + segment)
  {
    hide Contains, LastRunes;
    if c.mod.PolicyModerator? {
      var p := c.mod.policy;
      forall i | 0 <= i < |p.banned| && |p.banned[i]| <= c.overlapRunes + 1
        ensures !Contains(ToLower(emitted + segment, p.lower), p.banned[i])
      {
        NoStraddle(emitted, segment, p.banned[i], c.overlapRunes, p.lower);
      }
    }
  }

  lemma LastRunesShift(a: string, b: string, n: nat)
    ensures LastRunes(LastRunes(a, n) + b, n) == LastRunes(a + b, n)
  {
  }

  /** What the filter keeps: emitted text is clean and a prefix of the input;
      unless blocked, the buffer is the rest and the overlap is the emitted tail;
      a blocked filter has seen a banned word. */
  ghost predicate Invariant(c: Settings, f: Filter, emitted: string, text: string) {
    && Clean(c, emitted) && emitted <= text
    && (if f.blocked then Refuses(c.mod, text)
        else text == emitted + f.buf && f.overlap == LastRunes(emitted, c.overlapRunes))
  }

  lemma DrainKeepsInvariant(c: Settings, f: Filter, emitted: string, final: bool)
    requires !f.blocked && Invariant(c, f, emitted, emitted + f.buf)
    ensures var (f', o) := Drain(c, f, final);
            && Invariant(c, f', emitted + o.emit, emitted + f.buf)
            && (final && !f'.blocked ==> f'.buf == "")
  {
    hide Clean, Refuses, LastRunes, Segment;
    var (segment, remainder) := Segment(c, f.buf, final);
    assert segment + remainder == f.buf by { SegmentParts(c, f.buf, final); }
    SegmentParts(c, f.buf, final);
    if segment != "" {
      assert emitted + f.buf == (emitted + segment) + remainder;
      if Refuses(c.mod, f.overlap + segment) {
        var k := |emitted| - |f.overlap|;
        OverlapIsSuffix(emitted, c.overlapRunes);
        HitInside(c, f.overlap + segment, emitted[..k], remainder);
        assert emitted[..k] + (f.overlap + segment) + remainder == emitted + f.buf;
      } else {
        SegmentKeepsClean(c, emitted, segment);
        LastRunesShift(emitted, segment, c.overlapRunes);
      }
    }
    assert emitted + "" == emitted;
  }

  lemma SegmentParts(c: Settings, text: string, final: bool)
    ensures Segment(c, text, final).0 + Segment(c, text, final).1 == text
    ensures final ==> Segment(c, text, final) == (text, "")
  {
  }

  lemma OverlapIsSuffix(s: string, n: nat)
    ensures |LastRunes(s, n)| == n || LastRunes(s, n) == s
    ensures |LastRunes(s, n)| <= |s| && s == s[..|s| - |LastRunes(s, n)|] + LastRunes(s, n)
  {
  }

  lemma MoreTextKeepsBlocked(c: Settings, text: string, more: string)
    requires Refuses(c.mod, text)
    ensures Refuses(c.mod, text + more)
  {
    HitInside(c, text, "", more);
    assert "" + text + more == text + more;
  }

  lemma {:induction false} PushedInvariant(c: Settings, deltas: seq<string>)
    ensures Invariant(c, Pushed(c, deltas).0, Pushed(c, deltas).1, Concat(deltas))
  {
    hide Clean, Refuses, LastRunes, Drain;
    if deltas == [] {
      StartInvariant(c);
    } else {
      var n := |deltas| - 1;
      var (f, emitted) := Pushed(c, deltas[..n]);
      PushedInvariant(c, deltas[..n]);
      if f.blocked {
        MoreTextKeepsBlocked(c, Concat(deltas[..n]), deltas[n]);
        assert emitted + "" == emitted;
      } else {
        assert Concat(deltas) == emitted + (f.buf + deltas[n]);
        DrainKeepsInvariant(c, f.(buf := f.buf + deltas[n]), emitted, false);
      }
    }
  }

  lemma StartInvariant(c: Settings)
    ensures Invariant(c, FRESH, "", "")
  {
    if c.mod.PolicyModerator? {
      var p := c.mod.policy;
      forall i | 0 <= i < |p.banned| ensures !Contains(ToLower("", p.lower), p.banned[i]) {
        assert p.banned[i] in p.banned;
      }
    }
  }

  // ---- the verdict ----

  lemma VerdictFacts(c: Settings, deltas: seq<string>)
    ensures var (blocked, emitted) := Verdict(c, deltas);
            && (blocked ==> Refuses(c.mod, Concat(deltas)))
            && Clean(c, emitted) && emitted <= Concat(deltas)
            && (!blocked ==> emitted == Concat(deltas))
  {
    hide Clean, Refuses, LastRunes, Drain, Pushed;
    PushedInvariant(c, deltas);
    var (f, emitted) := Pushed(c, deltas);
    if !f.blocked { DrainKeepsInvariant(c, f, emitted, true); }
    assert emitted + "" == emitted;
  }

  /** A stream ends blocked only if its whole text contains a banned word, of any
      length and however it was split; otherwise it emitted the whole text. */
  lemma {:induction false} NoFalseBlock(c: Settings, deltas: seq<string>)
    ensures Verdict(c, deltas).0 ==> Refuses(c.mod, Concat(deltas))
    ensures !Verdict(c, deltas).0 ==> Verdict(c, deltas).1 == Concat(deltas)
  {
    hide Refuses, Verdict;
    VerdictFacts(c, deltas);
  }

  /** With words of at most overlapRunes + 1 runes, the streamed verdict is the
      one-shot verdict on the whole text, for every text and every split. */
  lemma {:induction false} StreamedEqualsOneShot(c: Settings, deltas: seq<string>)
    requires ShortWords(c)
    ensures Verdict(c, deltas).0 <==> Refuses(c.mod, Concat(deltas))
  {
    hide Verdict, Contains;
    VerdictFacts(c, deltas);
  }

  lemma {:induction false} SplitDoesNotMatter(c: Settings, deltas: seq<string>, others: seq<string>)
    requires ShortWords(c) && Concat(deltas) == Concat(others)
    ensures Verdict(c, deltas).0 == Verdict(c, others).0
  {
    hide Verdict, Refuses;
    StreamedEqualsOneShot(c, deltas);
    StreamedEqualsOneShot(c, others);
  }

  /** Whatever the lengths of the banned words, nothing the filter ever emits
      contains one of the short ones. */
  lemma {:induction false} EmittedIsClean(c: Settings, deltas: seq<string>)
    ensures Clean(c, Pushed(c, deltas).1) && Clean(c, Verdict(c, deltas).1)
  {
    hide Clean, Verdict, Pushed, Refuses;
    PushedInvariant(c, deltas);
    VerdictFacts(c, deltas);
  }

  ghost predicate AllLonger(c: Settings, length: nat) {
    c.mod.PolicyModerator? ==>
      forall i :: 0 <= i < |c.mod.policy.banned| ==> length < |c.mod.policy.banned[i]|
  }

  lemma ShortDrainAllows(c: Settings, f: Filter, final: bool)
    requires !f.blocked && AllLonger(c, |f.overlap| + |f.buf|)
    ensures !Drain(c, f, final).0.blocked
  {
    hide Segment, LastRunes;
    SegmentParts(c, f.buf, final);
  }

  /** The limit is sharp: a longer word whose last rune but one is a terminator is
      missed when the stream is split before its last rune. */
  lemma {:induction false} LongWordMissed(c: Settings, w: string)
    requires c.mod.PolicyModerator? && c.mod.policy.banned == [w] && ToLower(w, c.mod.policy.lower) == w
    requires |w| >= c.overlapRunes + 2 && IsTerminator(w[|w| - 2])
    ensures Concat([w[..|w| - 1], w[|w| - 1..]]) == w && Refuses(c.mod, w)
    ensures !Verdict(c, [w[..|w| - 1], w[|w| - 1..]]).0
  {
    hide Refuses, Drain, IsTerminator, AllLonger, Pushed, Push, Concat;
    var head, tail := w[..|w| - 1], w[|w| - 1..];
    TwoDeltas(c, head, tail);
    assert head + tail == w;
    LongWordHits(c, w);
    LongerThan(c, w, |head|);
    LongerThan(c, w, c.overlapRunes + 1);
    TakesWholeSentence(c, head);
    var f1 := Push(c, FRESH, head).0;
    OneRunePush(c, f1, tail);
    ShortDrainAllows(c, Push(c, f1, tail).0, true);
  }

  /** So is a longer word of one unbroken run, through the size cap: a run of some
      rune foreign to it fills the buffer before it. */
  lemma {:induction false} UnbrokenWordMissed(c: Settings, w: string, filler: char)
    requires c.mod.PolicyModerator? && c.mod.policy.banned == [w] && ToLower(w, c.mod.policy.lower) == w
    requires |w| >= c.overlapRunes + 2 && Unbroken(w[..|w| - 1]) && Unbroken([filler]) && c.mod.policy.lower(filler) !in w
    ensures var head := Repeat(filler, c.maxSegmentBytes) + w[..|w| - 1];
            && Refuses(c.mod, Concat([head, w[|w| - 1..]]))
            && !Verdict(c, [head, w[|w| - 1..]]).0
  {
    hide Refuses, Drain, AllLonger, Pushed, Push, Concat, Unbroken;
    var run := Repeat(filler, c.maxSegmentBytes);
    var head, tail := run + w[..|w| - 1], w[|w| - 1..];
    TwoDeltas(c, head, tail);
    LongWordHits(c, w);
    HitInside(c, w, run, "");
    assert run + w + "" == head + tail;
    LongerThan(c, w, c.overlapRunes + 1);
    FillerHides(c, w, run, filler);
    TakesWholeRun(c, run, w[..|w| - 1], filler);
    var f1 := Push(c, FRESH, head).0;
    OneRunePush(c, f1, tail);
    ShortDrainAllows(c, Push(c, f1, tail).0, true);
  }

  function Repeat(x: char, n: nat): string {
    seq(n, _ => x)
  }

  /** Neither the cut at a terminator nor the one at a space can divide it. */
  ghost predicate Unbroken(s: string) {
    forall i :: 0 <= i < |s| ==> !IsTerminator(s[i]) && !IsTokenSpace(s[i])
  }

  lemma FillerHides(c: Settings, w: string, run: string, filler: char)
    requires c.mod.PolicyModerator? && c.mod.policy.banned == [w] && w != ""
    requires c.mod.policy.lower(filler) !in w && forall i :: 0 <= i < |run| ==> run[i] == filler
    ensures !Refuses(c.mod, run + w[..|w| - 1])
  {
    var head := run + w[..|w| - 1];
    var whole := ToLower(head, c.mod.policy.lower);
    forall p | 0 <= p <= |whole| ensures !OccursAt(whole, w, p) {
      if p + |w| <= |whole| { assert whole[p..p + |w|][0] == c.mod.policy.lower(head[p]) != w[0]; }
    }
  }

  lemma TakesWholeRun(c: Settings, run: string, rest: string, filler: char)
    requires run == Repeat(filler, c.maxSegmentBytes) && Unbroken([filler]) && Unbroken(rest) && rest != ""
    requires !Refuses(c.mod, run + rest)
    ensures Push(c, FRESH, run + rest).0 == Filter("", LastRunes(run + rest, c.overlapRunes), false)
  {
    hide Refuses, Utf8Len, IsTerminator, IsTokenSpace;
    var text := run + rest;
    assert "" + text == text;
    assert Unbroken(text) by { assert Unbroken([filler]) ==> !IsTerminator([filler][0]) && !IsTokenSpace([filler][0]); }
    RunesTakeBytes(text);
    assert SplitKeepingLastToken(text) == (text, "");
    assert Segment(c, text, false) == (text, "");
  }

  lemma {:induction false} RunesTakeBytes(s: string)
    ensures |s| <= Utf8Len(s)
  {
    if s != "" { RunesTakeBytes(s[..|s| - 1]); }
  }

  ghost predicate WordsUpTo(m: Moderator, bound: nat) {
    m.PolicyModerator? ==> forall i :: 0 <= i < |m.policy.banned| ==> |m.policy.banned[i]| <= bound
  }

  ghost predicate AgreesWithOneShot(c: Settings) {
    forall deltas :: Verdict(c, deltas).0 <==> Refuses(c.mod, Concat(deltas))
  }

  /** Whatever the cap and the overlap, a bound on the length of banned words makes
      streaming agree with the one-shot check, for every policy within it and every
      split, if and only if it is at most overlapRunes + 1. */
  lemma {:induction false} SafeBoundIff(maxSegmentBytes: nat, overlapRunes: nat, bound: nat)
    ensures (forall m :: WordsUpTo(m, bound) ==> AgreesWithOneShot(Settings(m, maxSegmentBytes, overlapRunes))) <==>
            bound <= overlapRunes + 1
  {
    hide Verdict, Refuses, Concat;
    if bound <= overlapRunes + 1 {
      forall m | WordsUpTo(m, bound) ensures AgreesWithOneShot(Settings(m, maxSegmentBytes, overlapRunes)) {
        var c := Settings(m, maxSegmentBytes, overlapRunes);
        assert ShortWords(c);
        forall deltas ensures Verdict(c, deltas).0 <==> Refuses(c.mod, Concat(deltas)) {
          StreamedEqualsOneShot(c, deltas);
        }
      }
    } else {
      var w := Repeat('a', overlapRunes) + ".b";
      var m := PolicyModerator(KeywordPolicy([w], (r: char) => r), "", "");
      var c := Settings(m, maxSegmentBytes, overlapRunes);
      LongWordMissed(c, w);
      assert WordsUpTo(m, bound) && !AgreesWithOneShot(c);
    }
  }

  lemma TwoDeltas(c: Settings, a: string, b: string)
    ensures Concat([a, b]) == a + b
    ensures Pushed(c, [a]).0 == Push(c, FRESH, a).0
    ensures Pushed(c, [a, b]).0 == Push(c, Push(c, FRESH, a).0, b).0
  {
    hide Push;
    assert [a, b][..1] == [a] && [a][..0] == [];
    assert Pushed(c, [a]).0 == Push(c, FRESH, a).0;
    assert Concat([a]) == a;
  }

  lemma LongerThan(c: Settings, w: string, n: nat)
    requires c.mod.PolicyModerator? && c.mod.policy.banned == [w] && n < |w|
    ensures forall m: nat :: m <= n ==> AllLonger(c, m)
  {
  }

  lemma LongWordHits(c: Settings, w: string)
    requires c.mod.PolicyModerator? && c.mod.policy.banned == [w] && ToLower(w, c.mod.policy.lower) == w
    ensures Refuses(c.mod, w)
  {
    assert OccursAt(ToLower(w, c.mod.policy.lower), c.mod.policy.banned[0], 0);
    assert Contains(ToLower(w, c.mod.policy.lower), c.mod.policy.banned[0]);
  }

  lemma TakesWholeSentence(c: Settings, text: string)
    requires text != "" && IsTerminator(text[|text| - 1]) && AllLonger(c, |text|)
    ensures Push(c, FRESH, text).0 == Filter("", LastRunes(text, c.overlapRunes), false)
  {
    assert "" + text == text;
    assert text[..|text|] == text && text[|text|..] == "";
    ShortDrainAllows(c, FRESH.(buf := text), false);
  }

  lemma OneRunePush(c: Settings, f: Filter, rune: string)
    requires |rune| == 1 && f.buf == "" && !f.blocked && |f.overlap| <= c.overlapRunes
    requires AllLonger(c, |f.overlap| + 1)
    ensures var f' := Push(c, f, rune).0; !f'.blocked && |f'.overlap| + |f'.buf| <= c.overlapRunes + 1
  {
    hide AllLonger, Refuses;
    assert "" + rune == rune;
    assert rune[..1] == rune && rune[1..] == "";
    ShortDrainAllows(c, f.(buf := rune), false);
  }

  // ---- what one call does ----

  ghost predicate NoneOf(s: string, p: char -> bool) {
    forall i :: 0 <= i < |s| ==> !p(s[i])
  }

  ghost predicate EndsIn(s: string, p: char -> bool) {
    s != "" && p(s[|s| - 1])
  }

  /** A sentence that is neither finished nor too long is held back whole. */
  lemma UnfinishedHeldBack(c: Settings, f: Filter, delta: string)
    requires !f.blocked && NoneOf(f.buf + delta, IsTerminator) && Utf8Len(f.buf + delta) < c.maxSegmentBytes
    ensures Push(c, f, delta) == (f.(buf := f.buf + delta), Outcome("", false, ""))
  {
    hide IsTerminator, Utf8Len, Refuses;
  }

  /** Once a sentence is finished, the emission is the longest text that ends in a
      terminator, whatever the cap. */
  lemma FinishedEmitted(c: Settings, f: Filter, delta: string)
    requires !f.blocked && !NoneOf(f.buf + delta, IsTerminator)
    ensures var (f', o) := Push(c, f, delta);
            !o.blocked ==> f.buf + delta == o.emit + f'.buf && EndsIn(o.emit, IsTerminator) && NoneOf(f'.buf, IsTerminator)
  {
    hide IsTerminator, Utf8Len, Refuses, LastRunes;
    var text := f.buf + delta;
    var i := LastIndex(text, IsTerminator);
    assert text[..i + 1][|text[..i + 1]| - 1] == text[i];
  }

  /** At the cap, an unfinished sentence is emitted but for its last token, which
      follows a space; all of it only if it ends in a space or has none to cut at. */
  lemma CapKeepsLastToken(c: Settings, f: Filter, delta: string)
    requires !f.blocked && NoneOf(f.buf + delta, IsTerminator) && f.buf + delta != ""
    requires Utf8Len(f.buf + delta) >= c.maxSegmentBytes
    ensures var (f', o) := Push(c, f, delta);
            var text := f.buf + delta;
            !o.blocked ==>
              && text == o.emit + f'.buf && NoneOf(f'.buf, IsTokenSpace) && o.emit != ""
              && (f'.buf != "" ==> EndsIn(o.emit, IsTokenSpace))
              && (f'.buf == "" ==> EndsIn(text, IsTokenSpace) || NoneOf(text[1..], IsTokenSpace))
  {
    hide IsTerminator, Utf8Len, Push, Segment, IsTokenSpace, LastIndex;
    var text := f.buf + delta;
    PushEmitsSegment(c, f, delta);
    SegmentAtCap(c, text);
    SplitTakesSome(text);
    var (head, tail) := SplitKeepingLastToken(text);
    assert tail == "" && !IsTokenSpace(text[|text| - 1]) ==> forall i :: 0 <= i < |text[1..]| ==> text[1..][i] == text[i + 1];
  }

  lemma PushEmitsSegment(c: Settings, f: Filter, delta: string)
    requires !f.blocked
    ensures var (f', o) := Push(c, f, delta);
            var (segment, remainder) := Segment(c, f.buf + delta, false);
            segment != "" && !o.blocked ==> o.emit == segment && f'.buf == remainder
  {
    hide Segment, Refuses, LastRunes;
  }

  lemma SegmentAtCap(c: Settings, text: string)
    requires NoneOf(text, IsTerminator) && Utf8Len(text) >= c.maxSegmentBytes
    ensures Segment(c, text, false) == SplitKeepingLastToken(text)
  {
    hide IsTerminator, Utf8Len, SplitKeepingLastToken;
  }

  /** The moderator decides on what would be emitted without it, together with the
      overlap, and on nothing else: a hit emits nothing, clears the buffer and gives
      the output fallback; otherwise it makes no difference. */
  lemma PushBlocksIff(c: Settings, f: Filter, delta: string)
    requires !f.blocked
    ensures var unmoderated := Push(c.(mod := AllowAll), f, delta);
            var text := unmoderated.1.emit;
            Push(c, f, delta) ==
            if text != "" && Refuses(c.mod, f.overlap + text) then (Filter("", "", true), Outcome("", true, c.mod.outputFallback))
            else unmoderated
  {
    hide Segment, LastRunes, Hits;
    assert Segment(c.(mod := AllowAll), f.buf + delta, false) == Segment(c, f.buf + delta, false) by {
      SegmentIgnoresModerator(c, f.buf + delta, false);
    }
  }

  lemma SegmentIgnoresModerator(c: Settings, text: string, final: bool)
    ensures Segment(c.(mod := AllowAll), text, final) == Segment(c, text, final)
  {
  }

  /** Flush decides on all that is left in the same way. */
  lemma FlushBlocksIff(c: Settings, f: Filter)
    requires !f.blocked
    ensures var (f', o) := Flush(c, f);
            if f.buf != "" && Refuses(c.mod, f.overlap + f.buf) then f'.blocked && o == Outcome("", true, c.mod.outputFallback)
            else !f'.blocked && o == Outcome(f.buf, false, "") && f'.buf == ""
  {
    hide LastRunes, Hits;
  }

  /** A blocked filter stays blocked and gives nothing any more. */
  lemma BlockedForGood(c: Settings, deltas: seq<string>, delta: string)
    requires Pushed(c, deltas).0.blocked
    ensures Push(c, Pushed(c, deltas).0, delta) == (Filter("", "", true), Outcome("", true, ""))
    ensures Flush(c, Pushed(c, deltas).0) == (Filter("", "", true), Outcome("", true, ""))
  {
    hide Segment, LastRunes, Refuses;
    BlockedIsEmpty(c, deltas);
  }

  lemma {:induction false} BlockedIsEmpty(c: Settings, deltas: seq<string>)
    ensures Pushed(c, deltas).0.blocked ==> Pushed(c, deltas).0 == Filter("", "", true)
  {
    hide Segment, LastRunes, Refuses;
    if deltas != [] { BlockedIsEmpty(c, deltas[..|deltas| - 1]); }
  }

  // ---- whole sentences ----

  /** What follows the last terminator. */
  function Unfinished(text: string): (r: string)
    ensures |r| <= |text| && r == text[|text| - |r|..] && NoneOf(r, IsTerminator)
    ensures |r| < |text| ==> IsTerminator(text[|text| - |r| - 1])
  {
    text[LastIndex(text, IsTerminator) + 1..]
  }

  lemma UnfinishedUnique(text: string, done: string, rest: string)
    requires text == done + rest && NoneOf(rest, IsTerminator) && (done != "" ==> EndsIn(done, IsTerminator))
    ensures Unfinished(text) == rest
  {
    hide IsTerminator;
    var r := Unfinished(text);
    assert forall i :: |done| <= i < |text| ==> text[i] == rest[i - |done|];
    assert forall i :: |text| - |r| <= i < |text| ==> text[i] == r[i - (|text| - |r|)];
    assert done != "" ==> text[|done| - 1] == done[|done| - 1];
    assert |r| == |rest|;
  }

  ghost predicate BelowCap(c: Settings, deltas: seq<string>) {
    forall i :: 0 <= i <= |deltas| ==> Utf8Len(Unfinished(Concat(deltas[..i]))) < c.maxSegmentBytes
  }

  /** As long as no sentence reaches the cap, the client has been shown exactly the
      finished sentences, at every point of every unblocked stream, however it is
      split: nothing of an unfinished sentence leaves the filter. */
  lemma {:induction false} ShowsWholeSentences(c: Settings, deltas: seq<string>)
    requires BelowCap(c, deltas) && !Pushed(c, deltas).0.blocked
    ensures var (f, emitted) := Pushed(c, deltas);
            && Concat(deltas) == emitted + f.buf
            && f.buf == Unfinished(Concat(deltas)) && (emitted != "" ==> EndsIn(emitted, IsTerminator))
  {
    hide Utf8Len, IsTerminator, Push, Unfinished, EndsIn, BelowCap;
    if deltas == [] {
      UnfinishedUnique("", "", "");
    } else {
      var n := |deltas| - 1;
      var (f, emitted) := Pushed(c, deltas[..n]);
      PushUnblocked(c, f, deltas[n]);
      BelowCapBefore(c, deltas);
      ShowsWholeSentences(c, deltas[..n]);
      assert Concat(deltas) == (emitted + f.buf) + deltas[n];
      ShowsSentences(c, f, emitted, deltas[n]);
    }
  }

  lemma BelowCapBefore(c: Settings, deltas: seq<string>)
    requires BelowCap(c, deltas) && deltas != []
    ensures BelowCap(c, deltas[..|deltas| - 1]) && Utf8Len(Unfinished(Concat(deltas))) < c.maxSegmentBytes
  {
    hide Utf8Len, Unfinished, Concat;
    var before := deltas[..|deltas| - 1];
    assert deltas[..|deltas|] == deltas;
    assert forall i :: 0 <= i < |deltas| ==> before[..i] == deltas[..i];
  }

  lemma ShowsSentences(c: Settings, f: Filter, emitted: string, delta: string)
    requires !f.blocked && !Push(c, f, delta).1.blocked
    requires NoneOf(f.buf, IsTerminator) && (emitted != "" ==> EndsIn(emitted, IsTerminator))
    requires Utf8Len(Unfinished((emitted + f.buf) + delta)) < c.maxSegmentBytes
    ensures var (f', o) := Push(c, f, delta);
            var text := (emitted + f.buf) + delta;
            && text == (emitted + o.emit) + f'.buf
            && f'.buf == Unfinished(text) && (emitted + o.emit != "" ==> EndsIn(emitted + o.emit, IsTerminator))
  {
    hide Utf8Len, IsTerminator, Push, Unfinished;
    var text := (emitted + f.buf) + delta;
    assert text == emitted + (f.buf + delta);
    var (f', o) := Push(c, f, delta);
    if NoneOf(f.buf + delta, IsTerminator) {
      UnfinishedUnique(text, emitted, f.buf + delta);
      UnfinishedHeldBack(c, f, delta);
      assert emitted + "" == emitted;
    } else {
      FinishedEmitted(c, f, delta);
      assert text == (emitted + o.emit) + f'.buf;
      UnfinishedUnique(text, emitted + o.emit, f'.buf);
    }
  }

  lemma PushUnblocked(c: Settings, f: Filter, delta: string)
    requires !Push(c, f, delta).0.blocked
    ensures !f.blocked && !Push(c, f, delta).1.blocked
  {
  }

  // ---- how much is held back ----

  function Max(a: nat, b: nat): nat { if a < b then b else a }

  lemma {:induction false} Utf8LenConcat(a: string, b: string)
    ensures Utf8Len(a + b) == Utf8Len(a) + Utf8Len(b)
  {
    if b == "" {
      assert a + b == a;
    } else {
      Utf8LenConcat(a, b[..|b| - 1]);
      assert (a + b)[..|a + b| - 1] == a + b[..|b| - 1];
    }
  }

  lemma Utf8LenSuffix(s: string, i: nat)
    requires i <= |s|
    ensures Utf8Len(s[i..]) <= Utf8Len(s)
  {
    Utf8LenConcat(s[..i], s[i..]);
    assert s[..i] + s[i..] == s;
  }

  /** No terminator is held back; what is held back is below the cap, or no more
      than one delta, or a single unbroken token. */
  ghost predicate Held(c: Settings, buf: string, maxDelta: nat) {
    && NoneOf(buf, IsTerminator)
    && (|| Utf8Len(buf) < c.maxSegmentBytes
        || Utf8Len(buf) <= maxDelta
        || (NoneOf(buf, IsTokenSpace) && Utf8Len(buf) <= Max(c.maxSegmentBytes, maxDelta) + maxDelta))
  }

  lemma CutKeepsHeld(c: Settings, buf: string, delta: string, maxDelta: nat)
    requires Held(c, buf, maxDelta) && Utf8Len(delta) <= maxDelta
    requires CutAtLastTerminator(buf + delta) >= 0
    ensures Held(c, (buf + delta)[CutAtLastTerminator(buf + delta)..], maxDelta)
  {
    hide Utf8Len, IsTerminator, IsTokenSpace;
    var text := buf + delta;
    var i := LastIndex(text, IsTerminator);
    assert text[i + 1..] == delta[i + 1 - |buf|..];
    Utf8LenSuffix(delta, i + 1 - |buf|);
  }

  lemma SplitKeepsHeld(c: Settings, buf: string, delta: string, maxDelta: nat)
    requires Held(c, buf, maxDelta) && Utf8Len(delta) <= maxDelta
    requires CutAtLastTerminator(buf + delta) < 0
    ensures Held(c, SplitKeepingLastToken(buf + delta).1, maxDelta)
  {
    hide Utf8Len, IsTerminator, IsTokenSpace;
    var text := buf + delta;
    var i := LastIndex(text, IsTokenSpace);
    Utf8LenConcat(buf, delta);
    EmptyLen();
    if 0 < i < |text| - 1 {
      Utf8LenSuffix(text, i + 1);
      if NoneOf(buf, IsTokenSpace) {
        assert text[i + 1..] == delta[i + 1 - |buf|..];
        Utf8LenSuffix(delta, i + 1 - |buf|);
      }
    }
  }

  lemma EmptyLen()
    ensures Utf8Len("") == 0
  {
  }

  lemma PushKeepsHeld(c: Settings, f: Filter, delta: string, maxDelta: nat)
    requires !f.blocked && Held(c, f.buf, maxDelta) && Utf8Len(delta) <= maxDelta
    ensures Held(c, Push(c, f, delta).0.buf, maxDelta)
  {
    hide Held, Utf8Len, Refuses, LastRunes, SplitKeepingLastToken;
    var text := f.buf + delta;
    BlankHeld(c, maxDelta);
    if CutAtLastTerminator(text) >= 0 {
      CutKeepsHeld(c, f.buf, delta, maxDelta);
    } else {
      SplitKeepsHeld(c, f.buf, delta, maxDelta);
      if Utf8Len(text) < c.maxSegmentBytes { WaitingHeld(c, text, maxDelta); }
      if text == "" { BlankHeld(c, maxDelta); }
      SplitTakesSome(text);
    }
  }

  lemma SplitTakesSome(text: string)
    ensures SplitKeepingLastToken(text).0 == "" ==> text == ""
  {
  }

  lemma BlankHeld(c: Settings, maxDelta: nat)
    ensures Held(c, "", maxDelta)
  {
  }

  lemma WaitingHeld(c: Settings, text: string, maxDelta: nat)
    requires CutAtLastTerminator(text) < 0 && Utf8Len(text) < c.maxSegmentBytes
    ensures Held(c, text, maxDelta)
  {
  }

  /** If no delta exceeds `maxDelta` bytes, the unemitted buffer never contains a
      terminator and never exceeds max(maxSegmentBytes, maxDelta) + maxDelta bytes. */
  lemma {:induction false} BufferBounded(c: Settings, deltas: seq<string>, maxDelta: nat)
    requires forall i :: 0 <= i < |deltas| ==> Utf8Len(deltas[i]) <= maxDelta
    ensures var buf := Pushed(c, deltas).0.buf;
            && Held(c, buf, maxDelta)
            && NoneOf(buf, IsTerminator)
            && Utf8Len(buf) <= Max(c.maxSegmentBytes, maxDelta) + maxDelta
  {
    hide Utf8Len, Drain;
    if deltas == [] {
      BlankHeld(c, maxDelta);
      EmptyLen();
    } else {
      var n := |deltas| - 1;
      BufferBounded(c, deltas[..n], maxDelta);
      var f := Pushed(c, deltas[..n]).0;
      if !f.blocked { PushKeepsHeld(c, f, deltas[n], maxDelta); }
    }
  }
}
