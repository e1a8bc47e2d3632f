/** The Redis sorted set that the limiter scripts work on, and the member names
    that every gateway process puts in it. */
module Redis {

  datatype Entry = Entry(score: nat, member: string)

  /** A sorted-set key. Redis deletes a key whose last member goes, so no entries
      means no key; `expireAt` is the PEXPIRE instant and counts only while the
      key exists. */
  datatype ZSet = ZSet(entries: seq<Entry>, expireAt: nat)

  const ABSENT := ZSet([], 0)

  // ---- member order ----

  predicate LexLess(a: string, b: string) {
    b != "" && (a == "" || a[0] < b[0] || (a[0] == b[0] && LexLess(a[1..], b[1..])))
  }

  /** Redis orders by score and breaks ties on the member's bytes. */
  predicate Precedes(a: Entry, b: Entry) {
    a.score < b.score || (a.score == b.score && LexLess(a.member, b.member))
  }

  // ---- commands ----

  /** What a command at `now` sees: a key past its expiry is gone. */
  function Access(k: ZSet, now: nat): ZSet {
    if k.expireAt < now then ABSENT else k
  }

  /** ZREMRANGEBYSCORE key 0 hi. */
  function RemRangeByScore(s: seq<Entry>, hi: int): seq<Entry> {
    if s == [] then []
    else if s[0].score <= hi then RemRangeByScore(s[1..], hi)
    else [s[0]] + RemRangeByScore(s[1..], hi)
  }

  function Rem(s: seq<Entry>, member: string): seq<Entry> {
    if s == [] then []
    else if s[0].member == member then Rem(s[1..], member)
    else [s[0]] + Rem(s[1..], member)
  }

  function Insert(s: seq<Entry>, e: Entry): seq<Entry> {
    if s == [] || Precedes(e, s[0]) then [e] + s else [s[0]] + Insert(s[1..], e)
  }

  /** ZADD moves a member that is already present instead of adding a second one. */
  function Add(s: seq<Entry>, e: Entry): seq<Entry> {
    Insert(Rem(s, e.member), e)
  }

  // ---- views ----

  function Scores(s: seq<Entry>): (r: seq<nat>)
    ensures |r| == |s| && forall i :: 0 <= i < |s| ==> r[i] == s[i].score
  {
    seq(|s|, i requires 0 <= i < |s| => s[i].score)
  }

  /** The instants of `xs` later than `t`. */
  function After(xs: seq<nat>, t: int): seq<nat> {
    if xs == [] then []
    else if xs[0] <= t then After(xs[1..], t)
    else [xs[0]] + After(xs[1..], t)
  }

  ghost predicate Ascending(xs: seq<nat>) {
    forall i, j :: 0 <= i < j < |xs| ==> xs[i] <= xs[j]
  }

  ghost predicate AllAtMost(xs: seq<nat>, bound: int) {
    forall i :: 0 <= i < |xs| ==> xs[i] <= bound
  }

  ghost predicate HasMember(s: seq<Entry>, member: string) {
    exists i :: 0 <= i < |s| && s[i].member == member
  }

  // ---- lemmas about After ----

  /** On an ascending sequence After is a suffix: everything dropped is at most t
      and everything kept is later. */
  lemma {:induction false} AfterIsSuffix(xs: seq<nat>, t: int)
    requires Ascending(xs)
    ensures |After(xs, t)| <= |xs| && After(xs, t) == xs[|xs| - |After(xs, t)|..]
    ensures forall i :: 0 <= i < |xs| - |After(xs, t)| ==> xs[i] <= t
    ensures forall i :: |xs| - |After(xs, t)| <= i < |xs| ==> xs[i] > t
    ensures Ascending(After(xs, t))
  {
    if xs == [] {
    } else if xs[0] > t {
      AfterOfLater(xs, t);
    } else {
      AfterIsSuffix(xs[1..], t);
      SuffixShift(xs, After(xs, t), t);
    }
  }

  lemma SuffixShift(xs: seq<nat>, kept: seq<nat>, t: int)
    requires xs != [] && xs[0] <= t && |kept| < |xs|
    requires kept == xs[1..][|xs| - 1 - |kept|..]
    requires forall i :: 0 <= i < |xs| - 1 - |kept| ==> xs[1..][i] <= t
    requires forall i :: |xs| - 1 - |kept| <= i < |xs| - 1 ==> xs[1..][i] > t
    ensures kept == xs[|xs| - |kept|..]
    ensures forall i :: 0 <= i < |xs| - |kept| ==> xs[i] <= t
    ensures forall i :: |xs| - |kept| <= i < |xs| ==> xs[i] > t
  {
    assert forall i :: 0 < i < |xs| ==> xs[i] == xs[1..][i - 1];
  }

  lemma {:induction false} AfterOfLater(xs: seq<nat>, t: int)
    requires forall i :: 0 <= i < |xs| ==> xs[i] > t
    ensures After(xs, t) == xs
  {
    if xs != [] { AfterOfLater(xs[1..], t); }
  }

  lemma {:induction false} AfterOfEarlier(xs: seq<nat>, t: int)
    requires AllAtMost(xs, t)
    ensures After(xs, t) == []
  {
    if xs != [] { AfterOfEarlier(xs[1..], t); }
  }

  lemma AfterCons(x: nat, xs: seq<nat>, t: int)
    ensures After([x] + xs, t) == if x <= t then After(xs, t) else [x] + After(xs, t)
  {
    assert ([x] + xs)[1..] == xs;
  }

  lemma {:induction false} AfterConcat(xs: seq<nat>, ys: seq<nat>, t: int)
    ensures After(xs + ys, t) == After(xs, t) + After(ys, t)
  {
    hide After;
    if xs == [] {
      AfterOfLater(xs, t);
      assert xs + ys == ys;
    } else {
      AfterConcat(xs[1..], ys, t);
      AfterCons(xs[0], xs[1..], t);
      AfterCons(xs[0], xs[1..] + ys, t);
      assert xs == [xs[0]] + xs[1..] && xs + ys == [xs[0]] + (xs[1..] + ys);
    }
  }

  lemma AfterSnoc(xs: seq<nat>, x: nat, t: int)
    requires t < x
    ensures After(xs + [x], t) == After(xs, t) + [x]
  {
    AfterConcat(xs, [x], t);
    assert After([x], t) == [x] + After([x][1..], t);
  }

  lemma {:induction false} AfterAfter(xs: seq<nat>, t: int, u: int)
    requires t <= u
    ensures After(After(xs, t), u) == After(xs, u)
  {
    if xs != [] {
      AfterAfter(xs[1..], t, u);
      if xs[0] > t {
        assert ([xs[0]] + After(xs[1..], t))[1..] == After(xs[1..], t);
      }
    }
  }

  lemma {:induction false} PurgeScores(s: seq<Entry>, hi: int)
    ensures Scores(RemRangeByScore(s, hi)) == After(Scores(s), hi)
  {
    hide After;
    if s == [] {
      AfterOfLater(Scores(s), hi);
    } else {
      PurgeScores(s[1..], hi);
      var kept := RemRangeByScore(s[1..], hi);
      AfterCons(s[0].score, Scores(s[1..]), hi);
      assert Scores(s) == [s[0].score] + Scores(s[1..]);
      assert Scores([s[0]] + kept) == [s[0].score] + Scores(kept);
    }
  }

  lemma {:induction false} PurgeMembers(s: seq<Entry>, hi: int, member: string)
    requires HasMember(RemRangeByScore(s, hi), member)
    ensures HasMember(s, member)
  {
    var r := RemRangeByScore(s, hi);
    if s[0].score <= hi || r[0].member != member {
      var rest := RemRangeByScore(s[1..], hi);
      var i :| 0 <= i < |r| && r[i].member == member;
      assert rest[if s[0].score <= hi then i else i - 1].member == member;
      PurgeMembers(s[1..], hi, member);
      var j :| 0 <= j < |s[1..]| && s[1..][j].member == member;
      assert s[j + 1].member == member;
    }
  }

  lemma NoMembers(m: string)
    ensures !HasMember([], m)
  {
  }

  lemma {:induction false} RemAbsent(s: seq<Entry>, member: string)
    requires forall i :: 0 <= i < |s| ==> s[i].member != member
    ensures Rem(s, member) == s
  {
    if s != [] { RemAbsent(s[1..], member); }
  }

  /** Adding a fresh member at the latest score appends that score, wherever the
      tie-break puts the member, and adds that member only. */
  lemma {:induction false} AddLatest(s: seq<Entry>, e: Entry)
    requires Ascending(Scores(s)) && AllAtMost(Scores(s), e.score)
    requires !HasMember(s, e.member)
    ensures Scores(Add(s, e)) == Scores(s) + [e.score]
    ensures forall m :: HasMember(Add(s, e), m) ==> m == e.member || HasMember(s, m)
  {
    hide Insert;
    RemAbsent(s, e.member);
    InsertLatest(s, e);
    InsertMembers(s, e);
  }

  lemma {:induction false} InsertMembers(s: seq<Entry>, e: Entry)
    ensures forall i :: 0 <= i < |Insert(s, e)| ==> Insert(s, e)[i] == e || Insert(s, e)[i] in s
  {
    if s != [] && !Precedes(e, s[0]) { InsertMembers(s[1..], e); }
  }

  lemma InsertHeadOrTail(s: seq<Entry>, e: Entry)
    ensures s == [] ==> Insert(s, e) == [e]
    ensures s != [] && Precedes(e, s[0]) ==> Insert(s, e) == [e] + s
    ensures s != [] && !Precedes(e, s[0]) ==> Insert(s, e) == [s[0]] + Insert(s[1..], e)
  {
    assert s == [] ==> [e] + s == [e];
  }

  lemma {:induction false} InsertLatest(s: seq<Entry>, e: Entry)
    requires Ascending(Scores(s)) && AllAtMost(Scores(s), e.score)
    ensures Scores(Insert(s, e)) == Scores(s) + [e.score]
  {
    hide Insert, LexLess;
    InsertHeadOrTail(s, e);
    if s == [] {
    } else if Precedes(e, s[0]) {
      InsertBeforeTies(s, e);
    } else {
      assert Scores(s[1..]) == Scores(s)[1..];
      InsertLatest(s[1..], e);
      assert Scores([s[0]] + Insert(s[1..], e)) == [s[0].score] + Scores(Insert(s[1..], e));
    }
  }

  lemma InsertBeforeTies(s: seq<Entry>, e: Entry)
    requires s != [] && Ascending(Scores(s)) && AllAtMost(Scores(s), e.score) && e.score <= s[0].score
    ensures Scores([e] + s) == Scores(s) + [e.score]
  {
    forall i | 0 <= i < |s| ensures Scores(s)[i] == e.score {
      assert Scores(s)[0] <= Scores(s)[i];
    }
  }

  // ---- the set stays a sorted set ----

  lemma {:induction false} LexTotal(a: string, b: string)
    ensures a != b ==> LexLess(a, b) || LexLess(b, a)
    ensures !(LexLess(a, b) && LexLess(b, a)) && !LexLess(a, a)
  {
    if a != "" && b != "" && a[0] == b[0] {
      LexTotal(a[1..], b[1..]);
      assert a == [a[0]] + a[1..] && b == [b[0]] + b[1..];
    }
    if a != "" { LexTotal(a[1..], a[1..]); }
  }

  lemma {:induction false} LexTransitive(a: string, b: string, c: string)
    requires LexLess(a, b) && LexLess(b, c)
    ensures LexLess(a, c)
  {
    if a != "" && a[0] == b[0] == c[0] { LexTransitive(a[1..], b[1..], c[1..]); }
  }

  /** `a` comes before `b` in the order of the set, and is another member. */
  ghost predicate Before(a: Entry, b: Entry) {
    Precedes(a, b) && !Precedes(b, a) && a.member != b.member
  }

  ghost predicate IsSortedSet(s: seq<Entry>) {
    s == [] || (IsSortedSet(s[1..]) && forall x :: x in s[1..] ==> Before(s[0], x))
  }

  lemma BeforeOrAfter(a: Entry, b: Entry)
    requires a.member != b.member
    ensures if Precedes(a, b) then Before(a, b) else Before(b, a)
  {
    LexTotal(a.member, b.member);
  }

  lemma BeforeBoth(a: Entry, b: Entry, c: Entry)
    requires Before(a, b) && Before(b, c) && a.member != c.member
    ensures Before(a, c)
  {
    BeforeOrAfter(a, c);
    if a.score == b.score == c.score { LexTransitive(a.member, b.member, c.member); }
  }

  lemma {:induction false} RemKeepsOthers(s: seq<Entry>, m: string)
    requires IsSortedSet(s)
    ensures IsSortedSet(Rem(s, m)) && forall x :: x in Rem(s, m) <==> x in s && x.member != m
  {
    hide Before;
    if s != [] {
      RemKeepsOthers(s[1..], m);
      var rest := Rem(s[1..], m);
      assert forall x :: x in s <==> x == s[0] || x in s[1..];
      assert ([s[0]] + rest)[1..] == rest;
    }
  }

  lemma {:induction false} InsertKeepsSorted(s: seq<Entry>, e: Entry)
    requires IsSortedSet(s) && forall x :: x in s ==> x.member != e.member
    ensures IsSortedSet(Insert(s, e)) && forall x :: x in Insert(s, e) <==> x == e || x in s
  {
    hide Before, Precedes, Insert;
    InsertHeadOrTail(s, e);
    if s == [] {
      assert [e][1..] == [];
    } else {
      var rest := s[1..];
      assert forall x :: x in s <==> x == s[0] || x in rest;
      BeforeOrAfter(e, s[0]);
      if Precedes(e, s[0]) {
        assert ([e] + s)[1..] == s;
        forall x | x in s ensures Before(e, x) {
          if x != s[0] { BeforeBoth(e, s[0], x); }
        }
      } else {
        InsertKeepsSorted(rest, e);
        assert ([s[0]] + Insert(rest, e))[1..] == Insert(rest, e);
      }
    }
  }

  /** ZADD keeps the set in its order with each member once, and replaces the entry
      of its member or adds it, and touches no other. */
  lemma AddKeepsSortedSet(s: seq<Entry>, e: Entry)
    requires IsSortedSet(s)
    ensures IsSortedSet(Add(s, e))
    ensures forall x :: x in Add(s, e) <==> x == e || (x in s && x.member != e.member)
  {
    hide Before, Rem, Insert;
    RemKeepsOthers(s, e.member);
    InsertKeepsSorted(Rem(s, e.member), e);
  }

  // ---- member names ----

  /** instanceID ":" nowMs ":" serial, as every gateway names its members. */
  function MemberName(instance: string, nowMs: nat, serial: nat): string {
    instance + ":" + Decimal(nowMs) + ":" + Decimal(serial)
  }

  function Decimal(n: nat): (s: string)
    ensures s != "" && ':' !in s
  {
    if n < 10 then [Digit(n)] else Decimal(n / 10) + [Digit(n % 10)]
  }

  function Digit(n: nat): (c: char)
    requires n < 10
    ensures c != ':' && c as int == '0' as int + n
  {
    '0' + n as char
  }

  lemma {:induction false} DecimalInjective(m: nat, n: nat)
    requires Decimal(m) == Decimal(n)
    ensures m == n
  {
    var d := Decimal(m);
    assert d[|d| - 1] == Digit(m % 10) && d[|d| - 1] == Digit(n % 10);
    if m >= 10 && n >= 10 {
      assert Decimal(m / 10) == d[..|d| - 1] == Decimal(n / 10);
      DecimalInjective(m / 10, n / 10);
    }
  }

  lemma FirstColon(a: string, b: string, a': string, b': string)
    requires a + ":" + b == a' + ":" + b'
    requires ':' !in a && ':' !in a'
    ensures a == a'
  {
    var s := a + ":" + b;
    assert s[|a|] == ':' && s[|a'|] == ':';
    assert a == s[..|a|] && a' == s[..|a'|];
  }

  lemma LastColon(a: string, b: string, a': string, b': string)
    requires a + ":" + b == a' + ":" + b'
    requires ':' !in b && ':' !in b'
    ensures b == b'
  {
    var s := a + ":" + b;
    assert s[|a|] == ':' && s[|a'|] == ':';
    assert b == s[|a| + 1..] && b' == s[|a'| + 1..];
  }

  /** Two names are equal only if the instance and the serial are. */
  lemma MemberNameInjective(i: string, t: nat, n: nat, i': string, t': nat, n': nat)
    requires ':' !in i && ':' !in i'
    requires MemberName(i, t, n) == MemberName(i', t', n')
    ensures i == i' && n == n'
  {
    LastColon(i + ":" + Decimal(t), Decimal(n), i' + ":" + Decimal(t'), Decimal(n'));
    DecimalInjective(n, n');
    var rest, rest' := Decimal(t) + ":" + Decimal(n), Decimal(t') + ":" + Decimal(n');
    assert MemberName(i, t, n) == i + ":" + rest;
    assert MemberName(i', t', n') == i' + ":" + rest';
    FirstColon(i, rest, i', rest');
  }

  /** No entry carries a serial that `instance` has yet to issue. */
  ghost predicate Unissued(s: seq<Entry>, instance: string, serial: nat) {
    forall t: nat, n: nat :: serial < n ==> !HasMember(s, MemberName(instance, t, n))
  }

  /** The last serial that each gateway issued; its next one is one more. */
  function Serial(serials: map<string, nat>, gateway: string): nat {
    if gateway in serials then serials[gateway] else 0
  }

  ghost predicate NamesUnissued(s: seq<Entry>, serials: map<string, nat>) {
    forall gw | ':' !in gw :: Unissued(s, gw, Serial(serials, gw))
  }

  lemma NoneIssued()
    ensures NamesUnissued([], map[])
  {
  }

  /** A gateway's next name is in no set, whichever gateway filled it. */
  lemma NextIsFresh(s: seq<Entry>, serials: map<string, nat>, gw: string, t: nat)
    requires NamesUnissued(s, serials) && ':' !in gw
    ensures !HasMember(s, MemberName(gw, t, Serial(serials, gw) + 1))
  {
    assert Unissued(s, gw, Serial(serials, gw));
  }

  lemma IssueNone(s: seq<Entry>, s': seq<Entry>, serials: map<string, nat>)
    requires NamesUnissued(s, serials)
    requires forall m :: HasMember(s', m) ==> HasMember(s, m)
    ensures NamesUnissued(s', serials)
  {
    hide HasMember, MemberName;
  }

  lemma IssueOne(s: seq<Entry>, s': seq<Entry>, serials: map<string, nat>, g: string, t: nat)
    requires NamesUnissued(s, serials) && ':' !in g
    requires forall m :: HasMember(s', m) ==>
                           HasMember(s, m) || m == MemberName(g, t, Serial(serials, g) + 1)
    ensures NamesUnissued(s', serials[g := Serial(serials, g) + 1])
  {
    hide HasMember, MemberName;
    var serial := Serial(serials, g) + 1;
    var serials' := serials[g := serial];
    forall gw | ':' !in gw ensures Unissued(s', gw, Serial(serials', gw)) {
      assert Unissued(s, gw, Serial(serials, gw));
      forall t': nat, n: nat | Serial(serials', gw) < n ensures !HasMember(s', MemberName(gw, t', n)) {
        if MemberName(gw, t', n) == MemberName(g, t, serial) { MemberNameInjective(gw, t', n, g, t, serial); }
      }
    }
  }
}
