/** The loan store of the loan provider (src/contexts/LoanContext.tsx): the
    loan records, the dashboard counters, the three role-gated mutations and
    the three read-only filters. */
module LoanContext {
  import opened Wrappers
  import opened Seqs
  import opened Text
  import opened AuthContext

  datatype LoanStatus = Pending | Verified | Approved | Rejected

  /** A loan application. Amounts are whole numbers; the two date strings are
      whatever the clock rendered when the loan was submitted. */
  datatype Loan = Loan(
    id: string,
    userId: string,
    userName: string,
    loanOfficer: string,
    amount: int,
    purpose: string,
    status: LoanStatus,
    dateApplied: string,
    timeApplied: string,
    verifiedBy: Option<string>,
    approvedBy: Option<string>,
    rejectedBy: Option<string>,
    notes: Option<string>)

  datatype DashboardStats = DashboardStats(
    activeUsers: int,
    borrowers: int,
    cashDisbursed: int,
    cashReceived: int,
    savings: int,
    repaidLoans: int,
    otherAccounts: int,
    totalLoans: int)

  const InitialStats := DashboardStats(200, 100, 550000, 1000000, 450000, 30, 10, 50)

  /** Why a loan operation throws. */
  datatype LoanError =
    | NotLoggedIn   // 'You must be logged in to ...'
    | WrongRole     // 'Only verifiers can verify loans' / 'Only admins can approve loans'

  /** The status as the application writes it. */
  function StatusText(s: LoanStatus): string
  {
    match s
    case Pending => "pending"
    case Verified => "verified"
    case Approved => "approved"
    case Rejected => "rejected"
  }

  /** The role gate of `verifyLoan`. */
  predicate CanVerify(role: UserRole)
  {
    role == Verifier || role == Admin
  }

  /** The role gate of `approveLoan`. */
  predicate CanApprove(role: UserRole)
  {
    role == Admin
  }

  /** The lifecycle shown to users: pending to verified or rejected, verified to
      approved or rejected. The store itself does not enforce it. */
  predicate LegalStep(from: LoanStatus, to: LoanStatus)
  {
    (from == Pending && (to == Verified || to == Rejected)) ||
    (from == Verified && (to == Approved || to == Rejected))
  }

  // ----- Record updaters -----

  /** The record `applyForLoan` creates when the store holds `count` loans. */
  function NewLoan(count: nat, user: User, amount: int, purpose: string,
                   dateApplied: string, timeApplied: string): Loan
  {
    Loan(ToDecimal(count + 1), user.id, user.name, "John Okoh", amount, purpose, Pending,
         dateApplied, timeApplied, None, None, None, None)
  }

  /** `notes || loan.notes`: absent or empty new notes keep the old ones. */
  function MergeNotes(previous: Option<string>, notes: Option<string>): (r: Option<string>)
    ensures r == previous || (r == notes && notes != Some(""))
    ensures notes.Some? && notes.value != "" ==> r == notes
    ensures (notes.None? || notes == Some("")) ==> r == previous
  {
    if notes.Some? && notes.value != "" then notes else previous
  }

  /** The record after `verifyLoan` touched it. */
  function VerifyRecord(l: Loan, isApproved: bool, actor: string, notes: Option<string>): Loan
  {
    l.(status := if isApproved then Verified else Rejected,
       verifiedBy := Some(actor),
       notes := MergeNotes(l.notes, notes))
  }

  /** The record after `approveLoan` touched it. */
  function DecideRecord(l: Loan, isApproved: bool, actor: string, notes: Option<string>): Loan
  {
    l.(status := if isApproved then Approved else Rejected,
       approvedBy := if isApproved then Some(actor) else None,
       rejectedBy := if isApproved then None else Some(actor),
       notes := MergeNotes(l.notes, notes))
  }

  /** `loans.map(loan => loan.id === id ? f(loan) : loan)`: loans with another id
      are untouched, and when `f` keeps ids the list keeps its ids. */
  function UpdateById(loans: seq<Loan>, id: string, f: Loan -> Loan): (r: seq<Loan>)
    ensures |r| == |loans|
    ensures forall k :: 0 <= k < |r| && loans[k].id != id ==> r[k] == loans[k]
    ensures (forall l :: f(l).id == l.id) ==> forall k :: 0 <= k < |r| ==> r[k].id == loans[k].id
  {
    seq(|loans|, k requires 0 <= k < |loans| => if loans[k].id == id then f(loans[k]) else loans[k])
  }

  /** The loan list `verifyLoan` stores. */
  function VerifyAll(loans: seq<Loan>, id: string, isApproved: bool, actor: string, notes: Option<string>)
    : seq<Loan>
  {
    UpdateById(loans, id, (l: Loan) => VerifyRecord(l, isApproved, actor, notes))
  }

  /** The loan list `approveLoan` stores. */
  function DecideAll(loans: seq<Loan>, id: string, isApproved: bool, actor: string, notes: Option<string>)
    : seq<Loan>
  {
    UpdateById(loans, id, (l: Loan) => DecideRecord(l, isApproved, actor, notes))
  }

  // ----- Counter updaters -----

  function AppliedStats(s: DashboardStats): DashboardStats
  {
    s.(totalLoans := s.totalLoans + 1)
  }

  /** `loans.find(loan => loan.id === id)?.amount || 0`: the amount of the first
      loan with that id, or 0 when there is none. */
  function FirstAmount(loans: seq<Loan>, id: string): int
  {
    if loans == [] then 0
    else if loans[0].id == id then loans[0].amount
    else FirstAmount(loans[1..], id)
  }

  /** The counters after `approveLoan`: an approval adds the loan's amount and one borrower. */
  function DecidedStats(s: DashboardStats, loans: seq<Loan>, id: string, isApproved: bool): DashboardStats
  {
    if isApproved
    then s.(cashDisbursed := s.cashDisbursed + FirstAmount(loans, id), borrowers := s.borrowers + 1)
    else s
  }

  // ----- Queries -----

  /** `loans.filter(loan => loan.userId === userId)`. */
  function GetUserLoans(loans: seq<Loan>, userId: string): (r: seq<Loan>)
    ensures IsSubseq(r, loans)
    ensures forall k :: 0 <= k < |r| ==> r[k].userId == userId
    ensures forall k :: 0 <= k < |loans| && loans[k].userId == userId ==> loans[k] in r
    ensures forall l :: multiset(r)[l] == if l.userId == userId then multiset(loans)[l] else 0
  {
    FilterSpec(loans, (l: Loan) => l.userId == userId);
    Filter(loans, (l: Loan) => l.userId == userId)
  }

  /** `loans.filter(loan => loan.status === 'pending')`. */
  function GetPendingLoans(loans: seq<Loan>): (r: seq<Loan>)
    ensures IsSubseq(r, loans)
    ensures forall k :: 0 <= k < |r| ==> r[k].status == Pending
    ensures forall k :: 0 <= k < |loans| && loans[k].status == Pending ==> loans[k] in r
    ensures forall l :: multiset(r)[l] == if l.status == Pending then multiset(loans)[l] else 0
  {
    FilterSpec(loans, (l: Loan) => l.status == Pending);
    Filter(loans, (l: Loan) => l.status == Pending)
  }

  /** `loans.filter(loan => loan.status === 'verified')`. */
  function GetVerifiedLoans(loans: seq<Loan>): (r: seq<Loan>)
    ensures IsSubseq(r, loans)
    ensures forall k :: 0 <= k < |r| ==> r[k].status == Verified
    ensures forall k :: 0 <= k < |loans| && loans[k].status == Verified ==> loans[k] in r
    ensures forall l :: multiset(r)[l] == if l.status == Verified then multiset(loans)[l] else 0
  {
    FilterSpec(loans, (l: Loan) => l.status == Verified);
    Filter(loans, (l: Loan) => l.status == Verified)
  }

  // ----- Loan ids -----

  function LoanId(l: Loan): string
  {
    l.id
  }

  /** The decimal renderings of 1 .. n. */
  ghost function IdRange(n: nat): set<string>
  {
    if n == 0 then {} else IdRange(n - 1) + {ToDecimal(n)}
  }

  /** `id` is the decimal rendering of one of 1 .. n. */
  ghost predicate IdUpTo(id: string, n: nat)
  {
    id in IdRange(n)
  }

  lemma {:induction false} InIdRange(j: nat, n: nat)
    requires 1 <= j <= n
    ensures ToDecimal(j) in IdRange(n)
    decreases n
  {
    if j < n {
      InIdRange(j, n - 1);
    }
  }

  lemma {:induction false} NotInIdRange(j: nat, n: nat)
    requires j > n
    ensures ToDecimal(j) !in IdRange(n)
    decreases n
  {
    if n > 0 {
      NotInIdRange(j, n - 1);
      if ToDecimal(n) == ToDecimal(j) {
        ToDecimalInjective(n, j);
      }
    }
  }

  /** The id discipline of the store: every id is one of "1" .. "n" and no two loans share one. */
  ghost predicate ValidIds(loans: seq<Loan>)
  {
    (forall k :: 0 <= k < |loans| ==> IdUpTo(loans[k].id, |loans|)) &&
    DistinctBy(loans, LoanId)
  }

  /** The id given to the next loan is not yet in use. */
  lemma NextIdFresh(n: nat)
    ensures !IdUpTo(ToDecimal(n + 1), n)
  {
    NotInIdRange(n + 1, n);
  }

  /** Ids drawn from 1 .. n are also drawn from 1 .. n + 1. */
  lemma IdUpToGrows(id: string, n: nat)
    requires IdUpTo(id, n)
    ensures IdUpTo(id, n + 1)
  {
  }

  lemma IdUpToTop(n: nat)
    requires n >= 1
    ensures IdUpTo(ToDecimal(n), n)
  {
  }

  /** Prepending the next loan keeps every id within 1 .. n + 1. */
  lemma PrependKeepsIdsInRange(loans: seq<Loan>, l: Loan)
    requires forall k :: 0 <= k < |loans| ==> IdUpTo(loans[k].id, |loans|)
    requires l.id == ToDecimal(|loans| + 1)
    ensures forall k :: 0 <= k < |loans| + 1 ==> IdUpTo(([l] + loans)[k].id, |loans| + 1)
  {
    var s := [l] + loans;
    IdUpToTop(|loans| + 1);
    IdsUpToGrow(loans);
    assert s[0] == l;
    assert forall k :: 1 <= k < |s| ==> s[k] == loans[k - 1];
  }

  lemma IdsUpToGrow(loans: seq<Loan>)
    requires forall k :: 0 <= k < |loans| ==> IdUpTo(loans[k].id, |loans|)
    ensures forall k :: 0 <= k < |loans| ==> IdUpTo(loans[k].id, |loans| + 1)
  {
    forall k | 0 <= k < |loans| ensures IdUpTo(loans[k].id, |loans| + 1) {
      IdUpToGrows(loans[k].id, |loans|);
    }
  }

  /** Prepending a loan whose id no other loan uses keeps ids distinct. */
  lemma PrependKeepsDistinct(loans: seq<Loan>, l: Loan)
    requires DistinctBy(loans, LoanId)
    requires forall k :: 0 <= k < |loans| ==> loans[k].id != l.id
    ensures DistinctBy([l] + loans, LoanId)
  {
    var r := [l] + loans;
    forall i, j | 0 <= i < j < |r| ensures LoanId(r[i]) != LoanId(r[j]) {
      assert r[j] == loans[j - 1];
      if i > 0 {
        assert r[i] == loans[i - 1];
      }
    }
  }

  /** Prepending the next loan keeps the id discipline. */
  lemma PrependKeepsValidIds(loans: seq<Loan>, l: Loan)
    requires ValidIds(loans)
    requires l.id == ToDecimal(|loans| + 1)
    ensures ValidIds([l] + loans)
  {
    NewIdUnused(loans, l);
    PrependKeepsIdsInRange(loans, l);
    PrependKeepsDistinct(loans, l);
  }

  /** Updating records in place keeps every id, so the id discipline survives. */
  lemma UpdateKeepsValidIds(loans: seq<Loan>, id: string, f: Loan -> Loan)
    requires ValidIds(loans)
    requires forall l :: f(l).id == l.id
    ensures ValidIds(UpdateById(loans, id, f))
  {
    var r := UpdateById(loans, id, f);
    assert forall k :: 0 <= k < |r| ==> r[k].id == loans[k].id;
  }

  // ----- What the updaters do -----

  /** `verifyLoan` rewrites exactly the loans with the given id: their status
      becomes verified or rejected, `verifiedBy` the actor's name, and the notes
      are replaced only by non-empty new notes; every other field and every
      other loan stays as it was. */
  lemma VerifyAllEffect(loans: seq<Loan>, id: string, isApproved: bool, actor: string,
                        notes: Option<string>, k: nat)
    requires k < |loans|
    ensures |VerifyAll(loans, id, isApproved, actor, notes)| == |loans|
    ensures var after := VerifyAll(loans, id, isApproved, actor, notes)[k];
      && (loans[k].id != id ==> after == loans[k])
      && (loans[k].id == id ==>
            && after.status == (if isApproved then Verified else Rejected)
            && after.verifiedBy == Some(actor)
            && (notes.Some? && notes.value != "" ==> after.notes == notes)
            && ((notes.None? || notes == Some("")) ==> after.notes == loans[k].notes)
            && after == loans[k].(status := after.status, verifiedBy := after.verifiedBy, notes := after.notes))
  {
  }

  /** `approveLoan` rewrites exactly the loans with the given id: their status
      becomes approved or rejected, exactly one of `approvedBy` and `rejectedBy`
      names the actor and the other is cleared, `verifiedBy` is kept, and every
      other loan stays as it was. */
  lemma DecideAllEffect(loans: seq<Loan>, id: string, isApproved: bool, actor: string,
                        notes: Option<string>, k: nat)
    requires k < |loans|
    ensures |DecideAll(loans, id, isApproved, actor, notes)| == |loans|
    ensures var after := DecideAll(loans, id, isApproved, actor, notes)[k];
      && (loans[k].id != id ==> after == loans[k])
      && (loans[k].id == id ==>
            && after.status == (if isApproved then Approved else Rejected)
            && (after.approvedBy == Some(actor) <==> isApproved)
            && (after.rejectedBy == Some(actor) <==> !isApproved)
            && (after.approvedBy.None? || after.rejectedBy.None?)
            && after.verifiedBy == loans[k].verifiedBy
            && after.amount == loans[k].amount
            && after.notes == MergeNotes(loans[k].notes, notes)
            && after == loans[k].(status := after.status, approvedBy := after.approvedBy,
                                  rejectedBy := after.rejectedBy, notes := after.notes))
  {
  }

  /** Called on a pending loan, `verifyLoan` takes a step of the lifecycle. */
  lemma VerifyFromPendingIsLegal(l: Loan, isApproved: bool, actor: string, notes: Option<string>)
    requires l.status == Pending
    ensures LegalStep(l.status, VerifyRecord(l, isApproved, actor, notes).status)
  {
  }

  /** Called on a verified loan, `approveLoan` takes a step of the lifecycle. */
  lemma DecideFromVerifiedIsLegal(l: Loan, isApproved: bool, actor: string, notes: Option<string>)
    requires l.status == Verified
    ensures LegalStep(l.status, DecideRecord(l, isApproved, actor, notes).status)
  {
  }

  /** Neither mutation looks at the current status: a verifier can reopen an
      approved loan, and an admin can approve a loan nobody verified. */
  lemma StoreIgnoresSourceStatus(l: Loan, actor: string, notes: Option<string>)
    ensures l.status == Approved ==> !LegalStep(l.status, VerifyRecord(l, true, actor, notes).status)
    ensures l.status == Pending ==> !LegalStep(l.status, DecideRecord(l, true, actor, notes).status)
  {
  }

  // ----- What the counters do -----

  /** Rewriting records without touching ids or amounts does not change which amount is found. */
  lemma {:induction false} UpdateKeepsFirstAmount(loans: seq<Loan>, id: string, f: Loan -> Loan, target: string)
    requires forall l :: f(l).id == l.id && f(l).amount == l.amount
    ensures FirstAmount(UpdateById(loans, id, f), target) == FirstAmount(loans, target)
    decreases |loans|
  {
    if loans != [] {
      var r := UpdateById(loans, id, f);
      assert r[1..] == UpdateById(loans[1..], id, f);
      UpdateKeepsFirstAmount(loans[1..], id, f, target);
    }
  }

  /** With distinct ids, the amount found for a loan's id is that loan's amount. */
  lemma {:induction false} FirstAmountOfDistinct(loans: seq<Loan>, k: nat)
    requires k < |loans|
    requires DistinctBy(loans, LoanId)
    ensures FirstAmount(loans, loans[k].id) == loans[k].amount
    decreases |loans|
  {
    if k > 0 {
      assert LoanId(loans[0]) != LoanId(loans[k]);
      assert DistinctBy(loans[1..], LoanId) by {
        forall i, j | 0 <= i < j < |loans[1..]| ensures LoanId(loans[1..][i]) != LoanId(loans[1..][j]) {
          assert LoanId(loans[i + 1]) != LoanId(loans[j + 1]);
        }
      }
      FirstAmountOfDistinct(loans[1..], k - 1);
    }
  }

  /** Applying bumps the loan counter only. */
  lemma AppliedStatsEffect(s: DashboardStats)
    ensures AppliedStats(s).totalLoans == s.totalLoans + 1
    ensures AppliedStats(s).(totalLoans := s.totalLoans) == s
  {
  }

  /** An approval adds the loan's amount to the disbursed cash and one borrower,
      leaving the other counters alone; a rejection changes nothing. In a valid
      store the amount is exactly that of the loan with the id. */
  lemma DecidedStatsEffect(s: DashboardStats, loans: seq<Loan>, k: nat, isApproved: bool)
    requires k < |loans| && ValidIds(loans)
    ensures var after := DecidedStats(s, loans, loans[k].id, isApproved);
      && (isApproved ==>
            && after.cashDisbursed == s.cashDisbursed + loans[k].amount
            && after.borrowers == s.borrowers + 1
            && after.(cashDisbursed := s.cashDisbursed, borrowers := s.borrowers) == s)
      && (!isApproved ==> after == s)
  {
    FirstAmountOfDistinct(loans, k);
  }

  /** A new application is pending, belongs to the applicant, carries no decision
      or notes yet, and its id `count + 1` is outside "1" .. "count". */
  lemma NewLoanIsFreshPending(count: nat, user: User, amount: int, purpose: string,
                              dateApplied: string, timeApplied: string)
    ensures var l := NewLoan(count, user, amount, purpose, dateApplied, timeApplied);
            && l.status == Pending && l.userId == user.id && l.userName == user.name
            && l.amount == amount && l.purpose == purpose
            && l.verifiedBy.None? && l.approvedBy.None? && l.rejectedBy.None? && l.notes.None?
            && !IdUpTo(l.id, count)
  {
    NextIdFresh(count);
  }

  /** No loan carries the id: the lookup falls back to 0. */
  lemma {:induction false} FirstAmountAbsent(loans: seq<Loan>, id: string)
    requires forall k :: 0 <= k < |loans| ==> loans[k].id != id
    ensures FirstAmount(loans, id) == 0
    decreases |loans|
  {
    if loans != [] {
      assert forall k :: 0 <= k < |loans[1..]| ==> loans[1..][k] == loans[k + 1];
      FirstAmountAbsent(loans[1..], id);
    }
  }

  /** Approving an id no loan carries still counts a borrower, and adds nothing
      to the disbursed cash. */
  lemma ApprovingUnknownIdCountsBorrower(s: DashboardStats, loans: seq<Loan>, id: string)
    requires forall k :: 0 <= k < |loans| ==> loans[k].id != id
    ensures DecidedStats(s, loans, id, true) == s.(borrowers := s.borrowers + 1)
  {
    FirstAmountAbsent(loans, id);
  }

  /** `cashDisbursed` is a running counter, not a sum over approved loans:
      approving the same loan twice adds its amount twice. */
  lemma RepeatedApprovalCountsTwice(s: DashboardStats, loans: seq<Loan>, id: string,
                                    actor: string, notes: Option<string>)
    ensures var once := DecideAll(loans, id, true, actor, notes);
            DecidedStats(DecidedStats(s, loans, id, true), once, id, true).cashDisbursed
              == s.cashDisbursed + 2 * FirstAmount(loans, id)
  {
    UpdateKeepsFirstAmount(loans, id, (l: Loan) => DecideRecord(l, true, actor, notes), id);
  }

  // ----- The whole workflow -----

  /** A loan applied for, verified and approved ends approved, names its
      verifier and approver, leaves every older loan untouched, and raises the
      disbursed cash by its amount. */
  lemma ApplyVerifyApprove(loans: seq<Loan>, s: DashboardStats, applicant: User, verifier: User,
                           admin: User, amount: int, purpose: string, dateApplied: string, timeApplied: string)
    requires ValidIds(loans)
    ensures var l := NewLoan(|loans|, applicant, amount, purpose, dateApplied, timeApplied);
            var verified := VerifyAll([l] + loans, l.id, true, verifier.name, None);
            var approved := DecideAll(verified, l.id, true, admin.name, None);
            && |approved| == |loans| + 1
            && approved[0].status == Approved
            && approved[0].verifiedBy == Some(verifier.name)
            && approved[0].approvedBy == Some(admin.name)
            && approved[0].rejectedBy == None
            && approved[1..] == loans
            && DecidedStats(AppliedStats(s), verified, l.id, true).cashDisbursed == s.cashDisbursed + amount
  {
    var l := NewLoan(|loans|, applicant, amount, purpose, dateApplied, timeApplied);
    var v := VerifyRecord(l, true, verifier.name, None);
    NewIdUnused(loans, l);
    UpdateOnlyHead(l, loans, (x: Loan) => VerifyRecord(x, true, verifier.name, None));
    UpdateOnlyHead(v, loans, (x: Loan) => DecideRecord(x, true, admin.name, None));
  }

  /** The id of the next loan is carried by none of the stored loans. */
  lemma NewIdUnused(loans: seq<Loan>, l: Loan)
    requires ValidIds(loans)
    requires l.id == ToDecimal(|loans| + 1)
    ensures forall k :: 0 <= k < |loans| ==> loans[k].id != l.id
  {
    NextIdFresh(|loans|);
    forall k | 0 <= k < |loans| ensures loans[k].id != l.id {
      assert IdUpTo(loans[k].id, |loans|);
    }
  }

  /** Updating the id of a fresh first loan touches that loan alone. */
  lemma UpdateOnlyHead(l: Loan, loans: seq<Loan>, f: Loan -> Loan)
    requires forall k :: 0 <= k < |loans| ==> loans[k].id != l.id
    ensures UpdateById([l] + loans, l.id, f) == [f(l)] + loans
  {
    var r := UpdateById([l] + loans, l.id, f);
    forall k | 1 <= k < |r| ensures r[k] == loans[k - 1] {
      assert ([l] + loans)[k] == loans[k - 1];
    }
  }

  // ----- Ids are exactly 1 .. n -----

  ghost function IdsOf(loans: seq<Loan>): set<string>
  {
    set k | 0 <= k < |loans| :: loans[k].id
  }

  lemma {:induction false} IdRangeSize(n: nat)
    ensures |IdRange(n)| == n
    decreases n
  {
    if n > 0 {
      IdRangeSize(n - 1);
      NextIdFresh(n - 1);
    }
  }

  lemma {:induction false} IdsOfSize(loans: seq<Loan>)
    requires DistinctBy(loans, LoanId)
    ensures |IdsOf(loans)| == |loans|
    decreases |loans|
  {
    if loans != [] {
      var init := loans[..|loans| - 1];
      var last := loans[|loans| - 1];
      assert DistinctBy(init, LoanId) by {
        forall i, j | 0 <= i < j < |init| ensures LoanId(init[i]) != LoanId(init[j]) {
          assert init[i] == loans[i] && init[j] == loans[j];
        }
      }
      IdsOfSize(init);
      assert IdsOf(loans) == IdsOf(init) + {last.id};
      assert last.id !in IdsOf(init) by {
        forall k | 0 <= k < |init| ensures init[k].id != last.id {
          assert LoanId(loans[k]) != LoanId(loans[|loans| - 1]);
        }
      }
    }
  }

  lemma {:induction false} SubsetSize<T>(a: set<T>, b: set<T>)
    requires a <= b
    ensures |a| <= |b|
    decreases |a|
  {
    if a != {} {
      var x :| x in a;
      SubsetSize(a - {x}, b - {x});
    }
  }

  /** In a valid store the ids are exactly "1" .. "n": with no deletion every
      number up to the length is in use, so `length + 1` is always new. */
  lemma IdsAreOneToN(loans: seq<Loan>)
    requires ValidIds(loans)
    ensures IdsOf(loans) == IdRange(|loans|)
  {
    assert IdsOf(loans) <= IdRange(|loans|) by {
      forall x | x in IdsOf(loans) ensures x in IdRange(|loans|) {
        var k :| 0 <= k < |loans| && x == loans[k].id;
        assert IdUpTo(x, |loans|);
      }
    }
    IdsOfSize(loans);
    IdRangeSize(|loans|);
    if IdsOf(loans) != IdRange(|loans|) {
      var missing :| missing in IdRange(|loans|) && missing !in IdsOf(loans);
      SubsetSize(IdsOf(loans), IdRange(|loans|) - {missing});
    }
  }

  // ----- The seed -----

  /** What `generateMockLoans` produces at position `i` (id `i + 1`); the random
      choices are left open. */
  ghost predicate MockLoan(l: Loan, i: nat)
  {
    && l.id == ToDecimal(i + 1)
    && l.userId in {"1", "2", "3"}
    && l.userName == "John Okoh"
    && l.loanOfficer == "John Okoh"
    && 0 <= l.amount < 50000000 && l.amount % 500 == 0
    && l.purpose in {"Net Debt Set", "Not Debt Net", "Loan Fully Repaid"}
    && l.verifiedBy == None && l.approvedBy == None && l.rejectedBy == None && l.notes == None
  }

  ghost predicate MockSeed(seed: seq<Loan>)
  {
    |seed| == 20 && forall i :: 0 <= i < |seed| ==> MockLoan(seed[i], i)
  }

  /** The provider's state: the loan list (most recent first) and the dashboard counters. */
  class LoanProvider {
    var loans: seq<Loan>
    var dashboardStats: DashboardStats

    ghost predicate Valid()
      reads this
    {
      ValidIds(loans)
    }

    constructor (seed: seq<Loan>)
      requires MockSeed(seed)
      ensures Valid()
      ensures loans == seed && dashboardStats == InitialStats
    {
      loans := seed;
      dashboardStats := InitialStats;
      forall i, j | 0 <= i < j < |seed| ensures LoanId(seed[i]) != LoanId(seed[j]) {
        if seed[i].id == seed[j].id {
          ToDecimalInjective(i + 1, j + 1);
        }
      }
      forall k | 0 <= k < |seed| ensures IdUpTo(seed[k].id, |seed|) {
        InIdRange(k + 1, |seed|);
      }
    }

    /** Submits a loan for the signed-in user: the new record goes first, with
        status pending and a fresh id, and the loan counter goes up by one. */
    method ApplyForLoan(currentUser: Option<User>, amount: int, purpose: string,
                        dateApplied: string, timeApplied: string) returns (r: Outcome<LoanError>)
      requires Valid()
      modifies this
      ensures Valid()
      ensures r == (if currentUser.None? then Fail(NotLoggedIn) else Pass)
      ensures r.Fail? ==> loans == old(loans) && dashboardStats == old(dashboardStats)
      ensures r.Pass? ==>
        && loans == [NewLoan(|old(loans)|, currentUser.value, amount, purpose, dateApplied, timeApplied)] + old(loans)
        && dashboardStats == AppliedStats(old(dashboardStats))
      ensures r.Pass? ==> forall k :: 0 <= k < |old(loans)| ==> old(loans)[k].id != loans[0].id
    {
      if currentUser.None? {
        return Fail(NotLoggedIn);
      }
      var l := NewLoan(|loans|, currentUser.value, amount, purpose, dateApplied, timeApplied);
      NextIdFresh(|loans|);
      PrependKeepsValidIds(loans, l);
      loans := [l] + loans;
      dashboardStats := AppliedStats(dashboardStats);
      r := Pass;
    }

    /** A verifier or admin marks every loan with that id verified or rejected. */
    method VerifyLoan(currentUser: Option<User>, loanId: string, isApproved: bool, notes: Option<string>)
      returns (r: Outcome<LoanError>)
      requires Valid()
      modifies this
      ensures Valid()
      ensures r == (if currentUser.None? then Fail(NotLoggedIn)
                    else if !CanVerify(currentUser.value.role) then Fail(WrongRole)
                    else Pass)
      ensures dashboardStats == old(dashboardStats)
      ensures r.Fail? ==> loans == old(loans)
      ensures r.Pass? ==> loans == VerifyAll(old(loans), loanId, isApproved, currentUser.value.name, notes)
    {
      if currentUser.None? {
        return Fail(NotLoggedIn);
      }
      if !CanVerify(currentUser.value.role) {
        return Fail(WrongRole);
      }
      UpdateKeepsValidIds(loans, loanId, (l: Loan) => VerifyRecord(l, isApproved, currentUser.value.name, notes));
      loans := VerifyAll(loans, loanId, isApproved, currentUser.value.name, notes);
      r := Pass;
    }

    /** An admin approves or rejects every loan with that id; an approval also
        moves the disbursement and borrower counters. */
    method ApproveLoan(currentUser: Option<User>, loanId: string, isApproved: bool, notes: Option<string>)
      returns (r: Outcome<LoanError>)
      requires Valid()
      modifies this
      ensures Valid()
      ensures r == (if currentUser.None? then Fail(NotLoggedIn)
                    else if !CanApprove(currentUser.value.role) then Fail(WrongRole)
                    else Pass)
      ensures r.Fail? ==> loans == old(loans) && dashboardStats == old(dashboardStats)
      ensures r.Pass? ==>
        && loans == DecideAll(old(loans), loanId, isApproved, currentUser.value.name, notes)
        && dashboardStats == DecidedStats(old(dashboardStats), old(loans), loanId, isApproved)
    {
      if currentUser.None? {
        return Fail(NotLoggedIn);
      }
      if !CanApprove(currentUser.value.role) {
        return Fail(WrongRole);
      }
      var before := loans;
      UpdateKeepsValidIds(loans, loanId, (l: Loan) => DecideRecord(l, isApproved, currentUser.value.name, notes));
      loans := DecideAll(loans, loanId, isApproved, currentUser.value.name, notes);
      dashboardStats := DecidedStats(dashboardStats, before, loanId, isApproved);
      r := Pass;
    }
  }
}
