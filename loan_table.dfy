/** The loan table (src/components/dashboard/LoanTable.tsx): pagination, the
    status badge and which action buttons a row shows. */
module LoanTable {
  import opened Wrappers
  import opened Text
  import opened AuthContext
  import opened LoanContext

  function Min(a: int, b: int): int { if a <= b then a else b }
  function Max(a: int, b: int): int { if a <= b then b else a }

  /** Where a `slice` bound lands: negative bounds count from the end, and
      every bound is clamped to the array. */
  function SliceBound(n: nat, i: int): (b: nat)
    ensures b <= n
  {
    if i < 0 then Max(n + i, 0) else Min(i, n)
  }

  /** `s.slice(start, end)`. */
  function Slice<T>(s: seq<T>, start: int, end: int): seq<T>
  {
    var a, b := SliceBound(|s|, start), SliceBound(|s|, end);
    if a < b then s[a..b] else []
  }

  /** Adjacent non-negative `slice` ranges tile the array, and a range reaching
      past the end takes every element from its start. */
  lemma SliceTiles<T>(s: seq<T>, i: int, j: int, k: int)
    requires 0 <= i <= j <= k
    ensures Slice(s, i, j) + Slice(s, j, k) == Slice(s, i, k)
    ensures k >= |s| ==> Slice(s, i, k) == s[Min(i, |s|)..]
  {
    var a, b, c := Min(i, |s|), Min(j, |s|), Min(k, |s|);
    if a < b && b < c {
      assert s[a..b] + s[b..c] == s[a..c];
    }
  }

  /** `currentLoans`: the rows of page `currentPage`. */
  function CurrentLoans(loans: seq<Loan>, currentPage: int, rowsPerPage: int): seq<Loan>
  {
    var indexOfLastLoan := currentPage * rowsPerPage;
    var indexOfFirstLoan := indexOfLastLoan - rowsPerPage;
    Slice(loans, indexOfFirstLoan, indexOfLastLoan)
  }

  /** `Math.ceil(n / rowsPerPage)`. */
  function TotalPages(n: nat, rowsPerPage: nat): nat
    requires rowsPerPage > 0
  {
    if n % rowsPerPage == 0 then n / rowsPerPage else n / rowsPerPage + 1
  }

  lemma MulMonotone(a: nat, b: nat, r: nat)
    requires a <= b
    ensures a * r <= b * r
  {
    assert b * r == a * r + (b - a) * r;
  }

  /** The first row of page `p`, written as the component computes it. */
  lemma FirstRowIndex(p: int, r: int)
    ensures (p - 1) * r == p * r - r
  {
  }

  /** The page count is the least number of pages that covers every row. */
  lemma TotalPagesIsCeiling(n: nat, r: nat)
    requires r >= 1
    ensures TotalPages(n, r) * r >= n
    ensures TotalPages(n, r) == 0 || TotalPages(n, r) * r - r < n
  {
    var q := n / r;
    assert n == q * r + n % r;
    if n % r != 0 {
      assert (q + 1) * r == q * r + r;
    }
  }

  /** Where page `p` of an existing page range starts and ends relative to the row count. */
  lemma PageWithinRows(n: nat, p: nat, r: nat)
    requires r >= 1 && 1 <= p <= TotalPages(n, r)
    ensures p * r - r < n
    ensures p < TotalPages(n, r) ==> p * r < n
  {
    TotalPagesIsCeiling(n, r);
    var t := TotalPages(n, r);
    MulMonotone(p, t, r);
    if p < t {
      MulMonotone(p + 1, t, r);
      assert (p + 1) * r == p * r + r;
    }
  }

  /** Page `p` holds the rows from `p*r - r` up to `min(p*r, n)`, so never more than `r`. */
  lemma PageRows(loans: seq<Loan>, p: nat, r: nat)
    requires p >= 1 && r >= 1
    ensures var first, last := Min(p * r - r, |loans|), Min(p * r, |loans|);
            0 <= p * r - r && first <= last && CurrentLoans(loans, p, r) == loans[first..last]
    ensures |CurrentLoans(loans, p, r)| <= r
  {
    MulMonotone(1, p, r);
  }

  /** Pages 1 .. k laid end to end. */
  function PagesUpTo(loans: seq<Loan>, r: nat, k: nat): seq<Loan>
  {
    if k == 0 then [] else PagesUpTo(loans, r, k - 1) + CurrentLoans(loans, k, r)
  }

  lemma {:induction false} PagesUpToIsPrefix(loans: seq<Loan>, r: nat, k: nat)
    requires r >= 1
    ensures PagesUpTo(loans, r, k) == loans[..Min(k * r, |loans|)]
    decreases k
  {
    if k > 0 {
      PagesUpToIsPrefix(loans, r, k - 1);
      PageRows(loans, k, r);
      FirstRowIndex(k, r);
      var a, b := Min((k - 1) * r, |loans|), Min(k * r, |loans|);
      assert loans[..a] + loans[a..b] == loans[..b];
    }
  }

  /** Reading pages 1 .. totalPages in order gives back the whole list. */
  lemma PagesCoverLoans(loans: seq<Loan>, r: nat)
    requires r >= 1
    ensures PagesUpTo(loans, r, TotalPages(|loans|, r)) == loans
  {
    PagesUpToIsPrefix(loans, r, TotalPages(|loans|, r));
    TotalPagesIsCeiling(|loans|, r);
  }

  /** The footer text "from-to of total". */
  datatype RangeLabel = RangeLabel(from: int, to: int, total: nat)

  function Label(n: nat, currentPage: int, rowsPerPage: int): RangeLabel
  {
    var indexOfLastLoan := currentPage * rowsPerPage;
    var indexOfFirstLoan := indexOfLastLoan - rowsPerPage;
    RangeLabel(indexOfFirstLoan + 1, Min(indexOfLastLoan, n), n)
  }

  /** On a page that exists, the label numbers (from 1) the first and last row shown. */
  lemma LabelCountsShownRows(loans: seq<Loan>, p: nat, r: nat)
    requires r >= 1 && 1 <= p <= TotalPages(|loans|, r)
    ensures var lab, rows := Label(|loans|, p, r), CurrentLoans(loans, p, r);
            && lab.total == |loans|
            && lab.from == (p - 1) * r + 1
            && lab.to - lab.from + 1 == |rows| > 0
            && rows[0] == loans[lab.from - 1]
            && rows[|rows| - 1] == loans[lab.to - 1]
  {
    PageRows(loans, p, r);
    PageWithinRows(|loans|, p, r);
    FirstRowIndex(p, r);
  }

  predicate PreviousDisabled(currentPage: int)
  {
    currentPage == 1
  }

  predicate NextDisabled(currentPage: int, n: nat, rowsPerPage: nat)
    requires rowsPerPage > 0
  {
    currentPage == TotalPages(n, rowsPerPage)
  }

  /** Within the pages, "Next" is enabled exactly when another non-empty page follows. */
  lemma NextLeadsToRows(loans: seq<Loan>, p: nat, r: nat)
    requires r >= 1 && 1 <= p <= TotalPages(|loans|, r)
    ensures !NextDisabled(p, |loans|, r) <==> |CurrentLoans(loans, p + 1, r)| > 0
  {
    PageRows(loans, p + 1, r);
    PageWithinRows(|loans|, p, r);
    TotalPagesIsCeiling(|loans|, r);
    FirstRowIndex(p + 1, r);
  }

  /** "Next" compares for equality only: on an empty table there are no pages,
      page 1 is not the last one, and "Next" leads to more empty pages. */
  lemma NextEnabledOnEmptyTable(r: nat)
    requires r >= 1
    ensures TotalPages(0, r) == 0
    ensures !NextDisabled(1, 0, r) && CurrentLoans([], 2, r) == []
  {
  }

  /** Changing the page size keeps the page: on the third page of twenty loans
      at seven rows, switching to ten rows shows an empty page past the last
      one, and "Next" stays enabled. */
  lemma PageCanOutrunRows(loans: seq<Loan>)
    requires |loans| == 20
    ensures TotalPages(20, 7) == 3 && |CurrentLoans(loans, 3, 7)| == 6
    ensures TotalPages(20, 10) == 2 && CurrentLoans(loans, 3, 10) == []
    ensures !NextDisabled(3, 20, 10) && CurrentLoans(loans, 4, 10) == []
  {
  }

  /** The table's page state: the current page and the page size, moved by the
      footer's buttons and select. */
  class Pager {
    var currentPage: int
    var rowsPerPage: int

    ghost predicate Valid()
      reads this
    {
      currentPage >= 1 && rowsPerPage in {5, 7, 10}
    }

    constructor ()
      ensures Valid() && currentPage == 1 && rowsPerPage == 7
    {
      currentPage := 1;
      rowsPerPage := 7;
    }

    /** The rows on show for a table of `loans`. */
    function Rows(loans: seq<Loan>): (rows: seq<Loan>)
      reads this
      requires Valid()
      ensures |rows| <= rowsPerPage
    {
      PageRows(loans, currentPage, rowsPerPage);
      CurrentLoans(loans, currentPage, rowsPerPage)
    }

    /** The "previous" button: a click on the disabled button does nothing. */
    method Previous()
      requires Valid()
      modifies this
      ensures Valid() && rowsPerPage == old(rowsPerPage)
      ensures currentPage == if PreviousDisabled(old(currentPage)) then old(currentPage) else old(currentPage) - 1
    {
      if !PreviousDisabled(currentPage) {
        currentPage := currentPage - 1;
      }
    }

    /** The "next" button for a table of `n` rows. */
    method Next(n: nat)
      requires Valid()
      modifies this
      ensures Valid() && rowsPerPage == old(rowsPerPage)
      ensures currentPage == if NextDisabled(old(currentPage), n, rowsPerPage) then old(currentPage) else old(currentPage) + 1
    {
      if !NextDisabled(currentPage, n, rowsPerPage) {
        currentPage := currentPage + 1;
      }
    }

    /** The rows-per-page select; the current page is kept. */
    method SelectRowsPerPage(value: int)
      requires Valid()
      requires value in {5, 7, 10}
      modifies this
      ensures Valid() && currentPage == old(currentPage) && rowsPerPage == value
    {
      rowsPerPage := value;
    }
  }

  // ----- Status badge -----

  const BadgeBase := "px-3 py-1 rounded-full text-xs font-semibold text-white"

  /** The colour `StatusBadge` appends, chosen on the lower-cased status. */
  function BadgeColour(status: string): string
  {
    var s := ToLower(status);
    if s == "pending" then " bg-app-yellow"
    else if s == "verified" then " bg-green-500"
    else if s == "approved" then " bg-app-blue"
    else if s == "rejected" then " bg-app-red"
    else " bg-gray-500"
  }

  /** `StatusBadge`'s class name. */
  function BadgeClass(status: string): string
  {
    BadgeBase + BadgeColour(status)
  }

  lemma LowerIsIdempotent(s: string)
    ensures ToLower(ToLower(s)) == ToLower(s)
  {
  }

  /** The badge ignores case. */
  lemma BadgeIgnoresCase(status: string)
    ensures BadgeClass(status) == BadgeClass(ToLower(status))
  {
    LowerIsIdempotent(status);
  }

  lemma SameClassSameColour(a: string, b: string)
    requires BadgeClass(a) == BadgeClass(b)
    ensures BadgeColour(a) == BadgeColour(b)
  {
    assert BadgeClass(a)[|BadgeBase|..] == BadgeColour(a);
    assert BadgeClass(b)[|BadgeBase|..] == BadgeColour(b);
  }

  /** The four statuses get four different colours, none of them gray. */
  lemma BadgeTellsStatusesApart(a: LoanStatus, b: LoanStatus)
    ensures BadgeColour(StatusText(a)) != " bg-gray-500"
    ensures BadgeClass(StatusText(a)) == BadgeClass(StatusText(b)) ==> a == b
  {
    var ta, tb := StatusText(a), StatusText(b);
    assert ToLower(ta) == ta && ToLower(tb) == tb;
    assert " bg-app-blue"[4] != " bg-gray-500"[4];
    if BadgeClass(ta) == BadgeClass(tb) {
      SameClassSameColour(ta, tb);
      assert " bg-app-blue"[8] != " bg-app-red"[8];
    }
  }

  /** Anything that is not one of the four statuses, in any case, is gray. */
  lemma OtherStatusIsGray(status: string)
    requires forall s: LoanStatus :: ToLower(status) != StatusText(s)
    ensures BadgeColour(status) == " bg-gray-500"
  {
    assert ToLower(status) != StatusText(Pending) && ToLower(status) != StatusText(Verified);
    assert ToLower(status) != StatusText(Approved) && ToLower(status) != StatusText(Rejected);
  }

  // ----- Row actions -----

  /** The Verify/Reject pair of a row. */
  predicate ShowsVerifyButtons(currentUser: Option<User>, status: LoanStatus, hasOnVerify: bool)
  {
    currentUser.Some? && currentUser.value.role == Verifier && status == Pending && hasOnVerify
  }

  /** The Approve/Reject pair of a row. */
  predicate ShowsApproveButtons(currentUser: Option<User>, status: LoanStatus, hasOnApprove: bool)
  {
    currentUser.Some? && currentUser.value.role == Admin && status == Verified && hasOnApprove
  }

  /** A row never shows both pairs, and admins never get the verify pair. */
  lemma ButtonGroupsExclusive(currentUser: Option<User>, status: LoanStatus, hasOnVerify: bool, hasOnApprove: bool)
    ensures !(ShowsVerifyButtons(currentUser, status, hasOnVerify) && ShowsApproveButtons(currentUser, status, hasOnApprove))
    ensures currentUser.Some? && currentUser.value.role == Admin ==> !ShowsVerifyButtons(currentUser, status, hasOnVerify)
  {
  }

  /** Every button a row shows is accepted by the store's role gate and moves
      the loan one step along the lifecycle. */
  lemma ButtonsTakeLegalSteps(currentUser: Option<User>, l: Loan, hasOnVerify: bool, hasOnApprove: bool,
                              choice: bool, notes: Option<string>)
    ensures ShowsVerifyButtons(currentUser, l.status, hasOnVerify) ==>
      && CanVerify(currentUser.value.role)
      && LegalStep(l.status, VerifyRecord(l, choice, currentUser.value.name, notes).status)
    ensures ShowsApproveButtons(currentUser, l.status, hasOnApprove) ==>
      && CanApprove(currentUser.value.role)
      && LegalStep(l.status, DecideRecord(l, choice, currentUser.value.name, notes).status)
  {
  }
}
