/** The dashboard page (src/pages/Dashboard.tsx): the number formatting of the
    stat cards and the role that decides which handlers the loan table gets. */
module Dashboard {
  import opened Wrappers
  import opened Text
  import opened AuthContext
  import opened LoanContext

  // ----- formatNumber: `num.toString().replace(/\B(?=(\d{3})+(?!\d))/g, ",")` -----

  /** The regular-expression word characters `[A-Za-z0-9_]`. */
  predicate IsWordChar(c: char)
  {
    ('a' <= c <= 'z') || ('A' <= c <= 'Z') || IsDigit(c) || c == '_'
  }

  /** The length of the longest run of digits starting at `i`. */
  function DigitRun(s: string, i: nat): (n: nat)
    requires i <= |s|
    ensures i + n <= |s|
    ensures forall k :: i <= k < i + n ==> IsDigit(s[k])
    ensures i + n < |s| ==> !IsDigit(s[i + n])
    decreases |s| - i
  {
    if i < |s| && IsDigit(s[i]) then 1 + DigitRun(s, i + 1) else 0
  }

  /** `\B` at position `i`: the characters on both sides are alike, both word
      characters or both not (the ends of the string count as non-word). */
  predicate NotWordBoundary(s: string, i: nat)
    requires i <= |s|
  {
    (i > 0 && IsWordChar(s[i - 1])) == (i < |s| && IsWordChar(s[i]))
  }

  /** The pattern matches (empty) at `i`: `\B`, followed by a positive multiple
      of three digits and then no further digit. */
  predicate CommaAt(s: string, i: nat)
    requires i <= |s|
  {
    NotWordBoundary(s, i) && DigitRun(s, i) > 0 && DigitRun(s, i) % 3 == 0
  }

  /** The global replace from position `i` on: a comma goes in front of every
      character where the pattern matches. */
  function InsertCommasFrom(s: string, i: nat): string
    requires i <= |s|
    decreases |s| - i
  {
    if i == |s| then []
    else (if CommaAt(s, i) then "," else "") + [s[i]] + InsertCommasFrom(s, i + 1)
  }

  function FormatNumber(num: int): string
  {
    InsertCommasFrom(IntToString(num), 0)
  }

  // ----- The intended reading: thousands separators -----

  /** Digits in groups of three from the right, the groups joined by commas. */
  function Grouped(d: string): (g: string)
    ensures |g| >= |d|
    decreases |d|
  {
    if |d| <= 3 then d else Grouped(d[..|d| - 3]) + "," + d[|d| - 3..]
  }

  /** A well-grouped numeral: a leading group of one to three digits, then
      groups of exactly three digits, each after a comma. */
  predicate WellGrouped(g: string)
    decreases |g|
  {
    if ',' !in g then 1 <= |g| <= 3 && AllDigits(g)
    else |g| >= 5 && g[|g| - 4] == ',' && AllDigits(g[|g| - 3..]) && WellGrouped(g[..|g| - 4])
  }

  function RemoveCommas(s: string): (r: string)
    ensures ',' !in r
    ensures |r| <= |s|
    decreases |s|
  {
    if |s| == 0 then []
    else (if s[0] == ',' then [] else [s[0]]) + RemoveCommas(s[1..])
  }

  function Sign(num: int): string
  {
    if num < 0 then "-" else ""
  }

  function Magnitude(num: int): nat
  {
    if num < 0 then -num else num
  }

  // ----- Proofs that the pattern does the grouping -----

  /** The commas a run of digits receives when it does not start the numeral:
      one in front of every digit that leaves a multiple of three after it. */
  function GroupTail(t: string): string
    decreases |t|
  {
    if |t| == 0 then []
    else (if |t| % 3 == 0 then "," else "") + [t[0]] + GroupTail(t[1..])
  }

  lemma DigitRunOfDigits(s: string, i: nat)
    requires i <= |s|
    requires forall k :: i <= k < |s| ==> IsDigit(s[k])
    ensures DigitRun(s, i) == |s| - i
  {
  }

  lemma {:induction false} InsertCommasInDigits(s: string, i: nat)
    requires 1 <= i <= |s| && IsWordChar(s[i - 1])
    requires forall k :: i <= k < |s| ==> IsDigit(s[k])
    ensures InsertCommasFrom(s, i) == GroupTail(s[i..])
    decreases |s| - i
  {
    if i < |s| {
      DigitRunOfDigits(s, i);
      InsertCommasInDigits(s, i + 1);
      assert s[i..][1..] == s[i + 1..];
    }
  }

  lemma GroupTailCons(c: char, t: string)
    ensures GroupTail([c] + t) == (if (|t| + 1) % 3 == 0 then "," else "") + [c] + GroupTail(t)
  {
    assert ([c] + t)[1..] == t;
  }

  lemma ModThree(x: int, y: int)
    requires y % 3 == 0
    ensures (x + y) % 3 == x % 3
  {
    assert y == 3 * (y / 3);
  }

  lemma {:induction false} GroupTailConcat(a: string, b: string)
    requires |b| % 3 == 0
    ensures GroupTail(a + b) == GroupTail(a) + GroupTail(b)
    decreases |a|
  {
    if |a| > 0 {
      var c, rest := a[0], a[1..];
      assert a == [c] + rest && a + b == [c] + (rest + b);
      GroupTailCons(c, rest + b);
      GroupTailCons(c, rest);
      ModThree(|rest| + 1, |b|);
      GroupTailConcat(rest, b);
    } else {
      assert a + b == b;
    }
  }

  lemma GroupTailOne(c: char)
    ensures GroupTail([c]) == [c]
  {
    assert [c][1..] == [];
  }

  lemma GroupTailTwo(c: char, e: char)
    ensures GroupTail([c, e]) == [c, e]
  {
    assert [c, e][1..] == [e];
    GroupTailOne(e);
  }

  lemma GroupTailShort(t: string)
    requires |t| <= 2
    ensures GroupTail(t) == t
  {
    if |t| == 1 {
      assert t == [t[0]];
      GroupTailOne(t[0]);
    } else if |t| == 2 {
      assert t == [t[0], t[1]];
      GroupTailTwo(t[0], t[1]);
    }
  }

  lemma GroupTailThree(b: string)
    requires |b| == 3
    ensures GroupTail(b) == "," + b
  {
    GroupTailShort(b[1..]);
  }

  lemma {:induction false} LeadThenTailIsGrouped(d: string)
    requires |d| >= 1
    ensures [d[0]] + GroupTail(d[1..]) == Grouped(d)
    decreases |d|
  {
    if |d| <= 3 {
      GroupTailShort(d[1..]);
    } else {
      var p, b := d[..|d| - 3], d[|d| - 3..];
      assert d[1..] == p[1..] + b;
      GroupTailConcat(p[1..], b);
      GroupTailThree(b);
      LeadThenTailIsGrouped(p);
      var lead := [p[0]] + GroupTail(p[1..]);
      assert [d[0]] + GroupTail(d[1..]) == [p[0]] + (GroupTail(p[1..]) + ("," + b));
      assert [p[0]] + (GroupTail(p[1..]) + ("," + b)) == lead + "," + b;
      assert Grouped(d) == Grouped(p) + "," + b;
    }
  }

  /** The pattern never fires in front of the first digit of a numeral. */
  lemma UnsignedIsGrouped(d: string)
    requires |d| >= 1 && AllDigits(d)
    ensures InsertCommasFrom(d, 0) == Grouped(d)
  {
    assert IsDigit(d[0]);
    assert !NotWordBoundary(d, 0);
    assert InsertCommasFrom(d, 0) == [d[0]] + InsertCommasFrom(d, 1);
    InsertCommasInDigits(d, 1);
    LeadThenTailIsGrouped(d);
  }

  /** One step of the replace where the pattern does not match. */
  lemma InsertCommasStep(s: string, i: nat)
    requires i < |s| && !CommaAt(s, i)
    ensures InsertCommasFrom(s, i) == [s[i]] + InsertCommasFrom(s, i + 1)
  {
  }

  lemma SignedDigits(d: string)
    requires AllDigits(d)
    ensures forall k :: 1 <= k < |"-" + d| ==> IsDigit(("-" + d)[k])
  {
    var s := "-" + d;
    forall k | 1 <= k < |s|
      ensures IsDigit(s[k])
    {
      assert s[k] == d[k - 1];
    }
  }

  /** Nor on either side of a minus sign. */
  lemma SignedIsGrouped(d: string)
    requires |d| >= 1 && AllDigits(d)
    ensures InsertCommasFrom("-" + d, 0) == "-" + Grouped(d)
  {
    var s := "-" + d;
    SignedDigits(d);
    assert DigitRun(s, 0) == 0;
    InsertCommasStep(s, 0);
    assert !NotWordBoundary(s, 1);
    InsertCommasStep(s, 1);
    InsertCommasInDigits(s, 2);
    assert s[1] == d[0] && s[2..] == d[1..];
    LeadThenTailIsGrouped(d);
  }

  /** `formatNumber` writes the sign and then the decimal digits of the
      magnitude in groups of three. */
  lemma FormatNumberIsGrouped(num: int)
    ensures FormatNumber(num) == Sign(num) + Grouped(ToDecimal(Magnitude(num)))
  {
    var d := ToDecimal(Magnitude(num));
    if num >= 0 {
      UnsignedIsGrouped(d);
    } else {
      SignedIsGrouped(d);
      assert Sign(num) + Grouped(d) == "-" + Grouped(d);
    }
  }

  lemma {:induction false} RemoveCommasConcat(a: string, b: string)
    ensures RemoveCommas(a + b) == RemoveCommas(a) + RemoveCommas(b)
    decreases |a|
  {
    if |a| > 0 {
      assert (a + b)[1..] == a[1..] + b;
      RemoveCommasConcat(a[1..], b);
    } else {
      assert a + b == b;
    }
  }

  lemma {:induction false} RemoveCommasKeeps(s: string)
    requires ',' !in s
    ensures RemoveCommas(s) == s
    decreases |s|
  {
    if |s| > 0 {
      RemoveCommasKeeps(s[1..]);
    }
  }

  lemma DigitsHaveNoComma(d: string)
    requires AllDigits(d)
    ensures ',' !in d
  {
  }

  lemma AllDigitsSplit(p: string, b: string)
    requires AllDigits(p + b)
    ensures AllDigits(p) && AllDigits(b)
  {
    forall k | 0 <= k < |p|
      ensures IsDigit(p[k])
    {
      assert p[k] == (p + b)[k];
    }
    forall k | 0 <= k < |b|
      ensures IsDigit(b[k])
    {
      assert b[k] == (p + b)[|p| + k];
    }
  }

  /** Grouping only inserts commas. */
  lemma {:induction false} RemoveCommasOfGrouped(d: string)
    requires AllDigits(d)
    ensures RemoveCommas(Grouped(d)) == d
    decreases |d|
  {
    if |d| <= 3 {
      DigitsHaveNoComma(d);
      RemoveCommasKeeps(d);
    } else {
      var p, b := d[..|d| - 3], d[|d| - 3..];
      assert d == p + b;
      AllDigitsSplit(p, b);
      DigitsHaveNoComma(b);
      GroupedStep(p, b);
      RemoveCommasJoin(Grouped(p), b);
      RemoveCommasOfGrouped(p);
    }
  }

  /** A comma and a group of three digits extend a well-grouped numeral. */
  lemma WellGroupedStep(q: string, b: string)
    requires WellGrouped(q) && |b| == 3 && AllDigits(b)
    ensures WellGrouped(q + "," + b)
  {
    var g := q + "," + b;
    assert g[|g| - 4] == ',';
    assert ',' in g;
    assert g[..|g| - 4] == q;
    assert g[|g| - 3..] == b;
  }

  /** Grouping a numeral gives a well-grouped one. */
  lemma {:induction false} GroupedIsWellGrouped(d: string)
    requires AllDigits(d) && |d| >= 1
    ensures WellGrouped(Grouped(d))
    decreases |d|
  {
    if |d| > 3 {
      var p, b := d[..|d| - 3], d[|d| - 3..];
      assert forall k :: 0 <= k < |p| ==> p[k] == d[k];
      assert forall k :: 0 <= k < |b| ==> b[k] == d[|d| - 3 + k];
      GroupedIsWellGrouped(p);
      WellGroupedStep(Grouped(p), b);
    }
  }

  lemma GroupedStep(d1: string, b: string)
    requires |d1| >= 1 && |b| == 3
    ensures Grouped(d1 + b) == Grouped(d1) + "," + b
  {
    var d := d1 + b;
    assert d[..|d| - 3] == d1 && d[|d| - 3..] == b;
  }

  lemma RemoveCommasJoin(g1: string, b: string)
    requires ',' !in b
    ensures RemoveCommas(g1 + "," + b) == RemoveCommas(g1) + b
  {
    RemoveCommasConcat(g1 + ",", b);
    RemoveCommasConcat(g1, ",");
    RemoveCommasKeeps(b);
  }

  /** A well-grouped numeral is the grouping of its own digits, so `Grouped`
      is the only well-grouped way to write a digit string. */
  lemma {:induction false} WellGroupedIsGrouped(g: string)
    requires WellGrouped(g)
    ensures g == Grouped(RemoveCommas(g))
    decreases |g|
  {
    if ',' !in g {
      RemoveCommasKeeps(g);
    } else {
      var g1, b := g[..|g| - 4], g[|g| - 3..];
      assert g == g1 + "," + b;
      WellGroupedIsGrouped(g1);
      var d1 := RemoveCommas(g1);
      assert |d1| <= 3 ==> Grouped(d1) == d1;
      DigitsHaveNoComma(b);
      RemoveCommasJoin(g1, b);
      GroupedStep(d1, b);
    }
  }

  /** Removing the commas gives back `toString`'s output. */
  lemma FormatNumberRoundTrip(num: int)
    ensures RemoveCommas(FormatNumber(num)) == IntToString(num)
  {
    var d := ToDecimal(Magnitude(num));
    FormatNumberIsGrouped(num);
    RemoveCommasOfGrouped(d);
    RemoveCommasConcat(Sign(num), Grouped(d));
    RemoveCommasKeeps(Sign(num));
  }

  /** A non-negative number comes out well grouped. */
  lemma FormatNumberWellGrouped(num: nat)
    ensures WellGrouped(FormatNumber(num))
  {
    FormatNumberIsGrouped(num);
    assert Sign(num) + Grouped(ToDecimal(num)) == Grouped(ToDecimal(num));
    GroupedIsWellGrouped(ToDecimal(num));
  }

  /** A negative number is its magnitude's text behind a minus sign. */
  lemma FormatNegative(num: int)
    requires num < 0
    ensures FormatNumber(num) == "-" + FormatNumber(-num)
  {
    FormatNumberIsGrouped(num);
    FormatNumberIsGrouped(-num);
    assert Sign(-num) + Grouped(ToDecimal(-num)) == Grouped(ToDecimal(-num));
  }

  /** Below a thousand nothing changes; from a thousand up a comma appears. */
  lemma FormatNumberThousands(num: nat)
    ensures num < 1000 ==> FormatNumber(num) == IntToString(num)
    ensures num >= 1000 ==> ',' in FormatNumber(num)
  {
    FormatNumberIsGrouped(num);
    ShortDecimal(num);
    var d := ToDecimal(num);
    if num >= 1000 {
      assert Grouped(d) == Grouped(d[..|d| - 3]) + "," + d[|d| - 3..];
      assert Grouped(d)[|Grouped(d[..|d| - 3])|] == ',';
    }
  }

  // ----- The role and the handlers -----

  /** One run of the page's effect on the role state: it follows the signed-in
      user, and keeps its last value when nobody is signed in. */
  function NextRole(currentUser: Option<User>, role: UserRole): UserRole
  {
    if currentUser.Some? then currentUser.value.role else role
  }

  /** The role state starts as "user". */
  const InitialRole := RegularUser

  /** The role state after the effect has run on each value of `currentUser` in turn. */
  function RoleAfter(history: seq<Option<User>>): UserRole
    decreases |history|
  {
    if history == [] then InitialRole
    else NextRole(history[|history| - 1], RoleAfter(history[..|history| - 1]))
  }

  /** Until somebody signs in, the role is "user". */
  lemma {:induction false} RoleBeforeSignIn(history: seq<Option<User>>)
    requires forall k :: 0 <= k < |history| ==> history[k].None?
    ensures RoleAfter(history) == RegularUser
    decreases |history|
  {
    if history != [] {
      var init := history[..|history| - 1];
      assert forall k :: 0 <= k < |init| ==> init[k] == history[k];
      RoleBeforeSignIn(init);
    }
  }

  /** Afterwards it is the role of the last user who was signed in, whoever
      (if anyone) is signed in now. */
  lemma {:induction false} RoleOfLastSignIn(history: seq<Option<User>>, k: nat)
    requires k < |history| && history[k].Some?
    requires forall j :: k < j < |history| ==> history[j].None?
    ensures RoleAfter(history) == history[k].value.role
    decreases |history|
  {
    var init := history[..|history| - 1];
    if k < |history| - 1 {
      assert init[k] == history[k];
      assert forall j :: k < j < |init| ==> init[j] == history[j];
      RoleOfLastSignIn(init, k);
    }
  }

  /** `role === 'verifier' || role === 'admin'`: the table gets the verify handler. */
  predicate PassesVerifyHandler(role: UserRole)
  {
    role == Verifier || role == Admin
  }

  /** `role === 'admin'`: the table gets the approve handler. */
  predicate PassesApproveHandler(role: UserRole)
  {
    role == Admin
  }

  /** The handlers go exactly to the roles the store lets through, judged by the
      last user who signed in; before anyone signs in, neither is handed out. */
  lemma HandlersFollowLastSignIn(history: seq<Option<User>>, k: nat)
    requires k < |history| && history[k].Some?
    requires forall j :: k < j < |history| ==> history[j].None?
    ensures PassesVerifyHandler(RoleAfter(history)) <==> CanVerify(history[k].value.role)
    ensures PassesApproveHandler(RoleAfter(history)) <==> CanApprove(history[k].value.role)
  {
    RoleOfLastSignIn(history, k);
  }

  lemma NoHandlersBeforeSignIn(history: seq<Option<User>>)
    requires forall k :: 0 <= k < |history| ==> history[k].None?
    ensures !PassesVerifyHandler(RoleAfter(history)) && !PassesApproveHandler(RoleAfter(history))
  {
    RoleBeforeSignIn(history);
  }

  /** After the admin signs out the page still hands out both handlers. */
  lemma RoleOutlivesSignOut()
    ensures var role := RoleAfter([Some(MockUsers[0]), None]);
            PassesVerifyHandler(role) && PassesApproveHandler(role)
  {
    HandlersFollowLastSignIn([Some(MockUsers[0]), None], 0);
  }
}
