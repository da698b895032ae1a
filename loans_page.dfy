/** What the loans page shows (src/pages/LoansPage.tsx): the role-based choice
    of loans, the search filter, and which buttons and handlers each role gets. */
module LoansPage {
  import opened Wrappers
  import opened Seqs
  import opened Text
  import opened AuthContext
  import opened LoanContext

  /** The list a signed-in user is shown: admins see every loan, verifiers the
      pending ones, everyone else their own. */
  function LoansForUser(user: User, loans: seq<Loan>): (r: seq<Loan>)
    ensures user.role == Admin ==> r == loans
    ensures user.role == Verifier ==>
      && IsSubseq(r, loans)
      && (forall k :: 0 <= k < |r| ==> r[k].status == Pending)
      && (forall k :: 0 <= k < |loans| && loans[k].status == Pending ==> loans[k] in r)
      && (forall l :: multiset(r)[l] == if l.status == Pending then multiset(loans)[l] else 0)
    ensures user.role == RegularUser ==>
      && IsSubseq(r, loans)
      && (forall k :: 0 <= k < |r| ==> r[k].userId == user.id)
      && (forall k :: 0 <= k < |loans| && loans[k].userId == user.id ==> loans[k] in r)
      && (forall l :: multiset(r)[l] == if l.userId == user.id then multiset(loans)[l] else 0)
  {
    if user.role == Admin then loans
    else if user.role == Verifier then GetPendingLoans(loans)
    else GetUserLoans(loans, user.id)
  }

  /** The page's effect: with nobody signed in the displayed list keeps its
      previous value, otherwise it becomes the role's choice. */
  function DisplayLoans(currentUser: Option<User>, loans: seq<Loan>, displayed: seq<Loan>): seq<Loan>
  {
    if currentUser.None? then displayed else LoansForUser(currentUser.value, loans)
  }

  /** The displayed list starts empty and stays empty while nobody is signed in. */
  lemma NobodySignedInSeesNothing(loans: seq<Loan>)
    ensures DisplayLoans(None, loans, []) == []
  {
  }

  /** Once somebody is signed in, the list shown is the role's choice, whatever was
      displayed before. */
  lemma SignedInDisplayIgnoresPrevious(user: User, loans: seq<Loan>, before: seq<Loan>, before': seq<Loan>)
    ensures DisplayLoans(Some(user), loans, before) == DisplayLoans(Some(user), loans, before')
                                                  == LoansForUser(user, loans)
  {
  }

  /** The search term matches a loan when, lower-cased, it occurs in the
      lower-cased applicant name, purpose or status. */
  predicate MatchesSearch(l: Loan, searchTerm: string)
  {
    var term := ToLower(searchTerm);
    Includes(ToLower(l.userName), term) || Includes(ToLower(l.purpose), term)
      || Includes(ToLower(StatusText(l.status)), term)
  }

  /** `filteredLoans`: the displayed loans the search term matches, in order. */
  function FilteredLoans(displayLoans: seq<Loan>, searchTerm: string): (r: seq<Loan>)
    ensures IsSubseq(r, displayLoans)
    ensures forall k :: 0 <= k < |r| ==> MatchesSearch(r[k], searchTerm)
    ensures forall k :: 0 <= k < |displayLoans| && MatchesSearch(displayLoans[k], searchTerm)
                        ==> displayLoans[k] in r
    ensures forall l :: multiset(r)[l] == if MatchesSearch(l, searchTerm) then multiset(displayLoans)[l] else 0
  {
    FilterSpec(displayLoans, (l: Loan) => MatchesSearch(l, searchTerm));
    Filter(displayLoans, (l: Loan) => MatchesSearch(l, searchTerm))
  }

  /** An empty search keeps every displayed loan. */
  lemma EmptySearchKeepsAll(displayLoans: seq<Loan>)
    ensures FilteredLoans(displayLoans, "") == displayLoans
  {
    forall k | 0 <= k < |displayLoans| ensures MatchesSearch(displayLoans[k], "") {
      IncludesEmpty(ToLower(displayLoans[k].userName));
    }
    FilterKeepsAll(displayLoans, (l: Loan) => MatchesSearch(l, ""));
  }

  /** Searching for a status word finds every displayed loan with that status,
      whatever the case of the term. */
  lemma SearchByStatusFindsIt(displayLoans: seq<Loan>, k: nat, searchTerm: string)
    requires k < |displayLoans|
    requires ToLower(searchTerm) == StatusText(displayLoans[k].status)
    ensures displayLoans[k] in FilteredLoans(displayLoans, searchTerm)
  {
    var s := StatusText(displayLoans[k].status);
    assert ToLower(s) == s;
    assert s <= ToLower(s)[0..];
  }

  /** The "Apply for a Loan" button. */
  predicate ShowsApplyButton(currentUser: Option<User>)
  {
    currentUser.Some? && currentUser.value.role == RegularUser
  }

  /** Whether the page hands the verify handler to the table. */
  predicate PassesVerifyHandler(currentUser: Option<User>)
  {
    currentUser.Some? && (currentUser.value.role == Verifier || currentUser.value.role == Admin)
  }

  /** Whether the page hands the approve handler to the table. */
  predicate PassesApproveHandler(currentUser: Option<User>)
  {
    currentUser.Some? && currentUser.value.role == Admin
  }

  /** The page hands out each handler exactly to the users the store lets
      through, and offers "Apply" only to those who can do neither. */
  lemma HandlersMatchStoreGates(currentUser: Option<User>)
    ensures PassesVerifyHandler(currentUser) <==> currentUser.Some? && CanVerify(currentUser.value.role)
    ensures PassesApproveHandler(currentUser) <==> currentUser.Some? && CanApprove(currentUser.value.role)
    ensures ShowsApplyButton(currentUser) ==> !PassesVerifyHandler(currentUser) && !PassesApproveHandler(currentUser)
  {
  }
}
