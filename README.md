# Loan origination: a Dafny model of the state and views

The application is a React front end for a loan-origination workflow. There is no
server behind it: two context providers hold all the state in memory.

- **The authentication provider** keeps the user directory and the signed-in
  user. It signs users in and out, registers accounts, and lets admins add and
  remove other admins.
- **The loan provider** keeps the list of loan applications, most recent first,
  and eight dashboard counters. A signed-in user applies for a loan. A verifier
  or admin verifies or rejects it. An admin approves or rejects it, and an
  approval adds the loan's amount to the disbursed-cash counter.

The pages only project this state:

- The loans page picks which loans a role sees and filters them by a search term.
- The loan table pages the rows, colours a status badge and decides which action
  buttons a row shows.
- The dashboard formats its counters with thousands separators.
- The sidebar shows the navigation entries that list the user's role.

The model has these files:

| file | module | what it holds |
|---|---|---|
| `wrappers.dfy` | `Wrappers` | `Option` and `Outcome` (pass, or fail with an error) |
| `seqs.dfy` | `Seqs` | `Array.prototype.filter` and `find` on sequences, with a first-index helper (it returns the length when nothing matches), and their specifications |
| `text.dfy` | `Text` | ASCII `toLowerCase`, `includes`, and `Number.prototype.toString` for integers |
| `auth_context.dfy` | `AuthContext`, `AuthScenarios` | the `AuthProvider` class; a scenario in which an id is issued twice |
| `loan_context.dfy` | `LoanContext` | the loan records, the pure updaters and queries, the loan-id discipline, and the `LoanProvider` class |
| `loans_page.dfy` | `LoansPage` | the role-based loan list, the search filter and the handler wiring |
| `loan_table.dfy` | `LoanTable` | pagination with `slice` semantics, the range label, the `Pager` class, the status badge and the row buttons |
| `dashboard.dfy` | `Dashboard` | `formatNumber`, modelled on its regular expression, and the page's role state |
| `sidebar.dfy` | `Sidebar` | the eighteen navigation entries and the role filter |

Each provider is a class. Its fields are the provider's state, and each operation
is a method that returns an `Outcome`. A thrown error becomes `Fail` and leaves
the state unchanged. Each method's postcondition states the whole new state in
terms of the pure functions, and the lemmas prove what those functions
guarantee.

Both providers keep an invariant:

- `AuthProvider` keeps emails unique, ignoring case.
- `LoanProvider` keeps loan ids distinct and drawn from "1" .. "n". Because loans
  are never deleted, `IdsAreOneToN` shows the ids are exactly "1" .. "n", so the
  next id `length + 1` is always fresh.

The code is modelled as written. In these places it departs from the intended
loan workflow:

- `verifyLoan` and `approveLoan` do not check the loan's current status. A
  verifier can re-verify an approved loan, and an admin can approve a pending
  one. `StoreIgnoresSourceStatus` states this. Lifecycle legality holds only
  along the paths the user interface offers (`ButtonsTakeLegalSteps`).
- An unknown loan id is not an error. Every record is left as it was. An approval
  of an unknown id still adds one borrower and no cash, because the amount lookup
  falls back to 0 (`ApprovingUnknownIdCountsBorrower`).
- `verifiedBy`, `approvedBy` and `rejectedBy` hold the actor's name, not their id.
- `cashDisbursed` is a running counter. Approving the same loan twice adds its
  amount twice (`RepeatedApprovalCountsTwice`).
- User ids are `length + 1`, and removing an admin shortens the list, so an id can
  be issued twice. Removing an admin then also removes the other account with
  that id (`AuthScenarios.ReissuedId`).
- The table's "next" button is disabled only when the current page equals the
  page count. On an empty table it stays enabled (`NextEnabledOnEmptyTable`).
  After a change of page size it can point past the last page
  (`PageCanOutrunRows`).

## Model

Source paths are relative to the repository root.

| member | source | states |
|---|---|---|
| Text.ToDecimal | src/contexts/LoanContext.tsx:133 | the decimal text of a count is a non-empty digit string without a leading zero (except for 0 itself) |
| Text.ParseToDecimal | src/contexts/LoanContext.tsx:133 | reading the decimal text back gives the number, so an id encodes its count |
| Text.ToDecimalInjective | src/contexts/AuthContext.tsx:119 | different counts give different id strings |
| Seqs.FilterSpec | src/contexts/LoanContext.tsx:243-255 | `filter` returns an order-preserving subsequence that holds exactly the elements satisfying the predicate, each as many times as in the input |
| Seqs.Find | src/contexts/AuthContext.tsx:191 | `find` returns nothing exactly when no element matches, and otherwise returns the first match |
| AuthContext.FindByEmail | src/contexts/AuthContext.tsx:78 | the lookup finds a user iff some stored email equals the given one ignoring case, and then finds the first such user |
| AuthContext.WithoutId | src/contexts/AuthContext.tsx:197 | the filtered list keeps every user with a different id, in order, and none with the removed id |
| AuthContext.WithoutIdSpec | src/contexts/AuthContext.tsx:197 | in addition, every user with a different id keeps all its copies, so the result is exactly the others, in order |
| AuthContext.EmailTakenIff | src/contexts/AuthContext.tsx:113 | `EmailTaken` holds iff some stored email equals the given one, ignoring case |
| AuthContext.AdminExistsIff | src/contexts/AuthContext.tsx:191 | `AdminExists` holds iff some stored user is an admin with that id |
| AuthContext.NewUserIdsDiffer | src/contexts/AuthContext.tsx:118-123 | `NewUser` gives accounts created at different directory sizes different ids, and keeps the given email and role |
| AuthContext.AppendKeepsEmailsDistinct | src/contexts/AuthContext.tsx:113-127 | appending an account whose email is not taken keeps emails unique ignoring case |
| AuthContext.AdminExistsAt | src/contexts/AuthContext.tsx:191 | an admin stored under an id is found by the removal lookup |
| AuthContext.WithoutIdKeepsEmailsDistinct | src/contexts/AuthContext.tsx:197 | removing users keeps emails unique |
| AuthContext.AuthProvider.constructor | src/contexts/AuthContext.tsx:58-69 | the directory starts as the three demonstration accounts, and the signed-in slot holds whatever was restored |
| AuthContext.AuthProvider.Login | src/contexts/AuthContext.tsx:72-96 | fails with invalid credentials iff no email matches, and otherwise signs in the first match; the password is ignored |
| AuthContext.AuthProvider.Logout | src/contexts/AuthContext.tsx:99-103 | clears the signed-in user and keeps the directory |
| AuthContext.AuthProvider.Register | src/contexts/AuthContext.tsx:106-136 | fails iff the email is taken; otherwise appends an account with id `length + 1` and the given role (by default the regular role) and signs it in |
| AuthContext.AuthProvider.AddAdmin | src/contexts/AuthContext.tsx:139-172 | rejects non-admins first, then taken emails; otherwise appends an admin with id `length + 1`; the signed-in user is unchanged |
| AuthContext.AuthProvider.RemoveAdmin | src/contexts/AuthContext.tsx:175-205 | rejects non-admins, then self-removal, then ids with no admin; otherwise drops every user with the id, and the acting admin survives |
| AuthScenarios.ReissuedId | src/contexts/AuthContext.tsx:139-205 | after adding two admins and removing the first, a new registration gets the second admin's id, and removing that admin also removes the new account |
| LoanContext.MergeNotes | src/contexts/LoanContext.tsx:182 | non-empty new notes replace the old ones; absent or empty notes keep them |
| LoanContext.GetUserLoans | src/contexts/LoanContext.tsx:243-245 | exactly the loans of the user, in order, with every copy |
| LoanContext.GetPendingLoans | src/contexts/LoanContext.tsx:248-250 | exactly the pending loans, in order, with every copy |
| LoanContext.GetVerifiedLoans | src/contexts/LoanContext.tsx:253-255 | exactly the verified loans, in order, with every copy |
| LoanContext.NewLoanIsFreshPending | src/contexts/LoanContext.tsx:132-142 | `NewLoan` is pending, belongs to the applicant, has the given amount and purpose, no decision or notes, and an id outside "1" .. "n" |
| LoanContext.NextIdFresh | src/contexts/LoanContext.tsx:133 | the id `n + 1` is not among the ids "1" .. "n" |
| LoanContext.PrependKeepsValidIds | src/contexts/LoanContext.tsx:132-144 | putting the new loan first keeps the ids distinct and within "1" .. "n + 1" |
| LoanContext.UpdateKeepsValidIds | src/contexts/LoanContext.tsx:176-185 | rewriting records without changing ids keeps the id discipline |
| LoanContext.IdsAreOneToN | src/contexts/LoanContext.tsx:133 | in a valid store the ids are exactly "1" .. "n" |
| LoanContext.VerifyAllEffect | src/contexts/LoanContext.tsx:176-185 | in `VerifyAll`, loans with the id become verified or rejected, record the actor as verifier and merge the notes; every other field and every other loan is unchanged |
| LoanContext.DecideAllEffect | src/contexts/LoanContext.tsx:211-221 | in `DecideAll`, loans with the id become approved or rejected; exactly one of approver and rejecter names the actor; the notes are merged; every other field and every other loan is unchanged |
| LoanContext.VerifyFromPendingIsLegal | src/contexts/LoanContext.tsx:176-185 | verifying a pending loan is a step of the lifecycle |
| LoanContext.DecideFromVerifiedIsLegal | src/contexts/LoanContext.tsx:211-221 | deciding a verified loan is a step of the lifecycle |
| LoanContext.StoreIgnoresSourceStatus | src/contexts/LoanContext.tsx:162-221 | the store accepts steps outside the lifecycle: re-verifying an approved loan, and approving a pending one |
| LoanContext.UpdateKeepsFirstAmount | src/contexts/LoanContext.tsx:225 | the amount lookup gives the same answer after records are rewritten without changing ids or amounts |
| LoanContext.FirstAmountOfDistinct | src/contexts/LoanContext.tsx:225 | with distinct ids, `FirstAmount` of a loan's id is that loan's amount |
| LoanContext.FirstAmountAbsent | src/contexts/LoanContext.tsx:225 | `FirstAmount` of an id no loan has is 0 |
| LoanContext.AppliedStatsEffect | src/contexts/LoanContext.tsx:147-150 | `AppliedStats`: applying raises the loan counter by one and changes no other counter |
| LoanContext.DecidedStatsEffect | src/contexts/LoanContext.tsx:224-231 | `DecidedStats`: an approval adds the loan's amount to the disbursed cash and one borrower and changes nothing else; a rejection changes nothing |
| LoanContext.ApprovingUnknownIdCountsBorrower | src/contexts/LoanContext.tsx:224-231 | approving an id no loan has adds one borrower and no cash |
| LoanContext.RepeatedApprovalCountsTwice | src/contexts/LoanContext.tsx:197-231 | approving the same loan twice adds its amount twice |
| LoanContext.ApplyVerifyApprove | src/contexts/LoanContext.tsx:118-231 | an applied, verified and approved loan ends approved, names its verifier and approver, leaves older loans untouched and raises the disbursed cash by its amount |
| LoanContext.LoanProvider.constructor | src/contexts/LoanContext.tsx:62-106 | starts from twenty seed loans with ids "1" .. "20" and the fixed initial counters, and establishes the id invariant |
| LoanContext.LoanProvider.ApplyForLoan | src/contexts/LoanContext.tsx:118-159 | fails when nobody is signed in; otherwise puts a pending loan with a fresh id first and raises the loan counter |
| LoanContext.LoanProvider.VerifyLoan | src/contexts/LoanContext.tsx:162-194 | fails when nobody is signed in, then for roles other than verifier and admin; otherwise updates every loan with the id; the counters never change |
| LoanContext.LoanProvider.ApproveLoan | src/contexts/LoanContext.tsx:197-240 | fails when nobody is signed in, then for non-admins; otherwise decides every loan with the id and updates the counters from the list before the update |
| LoansPage.LoansForUser | src/pages/LoansPage.tsx:30-39 | admins see every loan, verifiers exactly the pending ones, and other users exactly their own, all in order and with every copy |
| LoansPage.NobodySignedInSeesNothing | src/pages/LoansPage.tsx:22-26 | `DisplayLoans`: while nobody is signed in the displayed list stays empty |
| LoansPage.SignedInDisplayIgnoresPrevious | src/pages/LoansPage.tsx:25-42 | `DisplayLoans`: for a signed-in user the list is the role's choice, whatever was displayed before |
| LoansPage.FilteredLoans | src/pages/LoansPage.tsx:65-69 | the loans that satisfy `MatchesSearch` (name, purpose or status contains the term, ignoring case), in order and with every copy |
| LoansPage.EmptySearchKeepsAll | src/pages/LoansPage.tsx:65-69 | `MatchesSearch` with an empty term holds, so it keeps every displayed loan |
| LoansPage.SearchByStatusFindsIt | src/pages/LoansPage.tsx:68 | searching for a status word in any case finds every loan with that status |
| LoansPage.HandlersMatchStoreGates | src/pages/LoansPage.tsx:76-112 | the verify and approve handlers go exactly to the users the store lets through, and the apply button only to users who get neither |
| LoanTable.SliceTiles | src/components/dashboard/LoanTable.tsx:36 | `Slice`: adjacent non-negative ranges tile the array, and a range past the end runs to the end |
| LoanTable.PageRows | src/components/dashboard/LoanTable.tsx:34-36 | `CurrentLoans`: page p holds the rows from p·r − r, the first index the component computes, up to min(p·r, n), so never more than r |
| LoanTable.TotalPagesIsCeiling | src/components/dashboard/LoanTable.tsx:37 | `TotalPages`: the page count is the least number of pages covering every row |
| LoanTable.PagesCoverLoans | src/components/dashboard/LoanTable.tsx:34-37 | pages 1 .. totalPages laid end to end give back the whole list |
| LoanTable.LabelCountsShownRows | src/components/dashboard/LoanTable.tsx:195 | on an existing page `Label` gives the 1-based positions of the first and last row shown, and the total |
| LoanTable.NextLeadsToRows | src/components/dashboard/LoanTable.tsx:210-211 | within the pages, "next" is enabled iff the next page has rows |
| LoanTable.NextEnabledOnEmptyTable | src/components/dashboard/LoanTable.tsx:210-211 | an empty table has no pages, yet "next" is enabled on page 1 |
| LoanTable.PageCanOutrunRows | src/components/dashboard/LoanTable.tsx:186-211 | after switching from seven to ten rows on page 3 of 20 loans, the page is empty and "next" is still enabled |
| LoanTable.Pager.constructor | src/components/dashboard/LoanTable.tsx:30-31 | the table starts on page 1 with seven rows |
| LoanTable.Pager.Rows | src/components/dashboard/LoanTable.tsx:34-36 | the rows on show never exceed the page size |
| LoanTable.Pager.Previous | src/components/dashboard/LoanTable.tsx:202-203 | goes back a page unless on page 1 |
| LoanTable.Pager.Next | src/components/dashboard/LoanTable.tsx:210-211 | goes forward a page unless the page equals the page count |
| LoanTable.Pager.SelectRowsPerPage | src/components/dashboard/LoanTable.tsx:186-190 | sets one of the offered page sizes and keeps the current page |
| LoanTable.BadgeIgnoresCase | src/components/dashboard/LoanTable.tsx:43 | `BadgeClass` depends only on the lower-cased status |
| LoanTable.BadgeTellsStatusesApart | src/components/dashboard/LoanTable.tsx:43-58 | the four statuses get four different colours, none of them gray |
| LoanTable.OtherStatusIsGray | src/components/dashboard/LoanTable.tsx:56-57 | any other status text is gray |
| LoanTable.ButtonGroupsExclusive | src/components/dashboard/LoanTable.tsx:118-139 | `ShowsVerifyButtons` and `ShowsApproveButtons`: a row never shows both button pairs, and admins never get the verify pair |
| LoanTable.ButtonsTakeLegalSteps | src/components/dashboard/LoanTable.tsx:118-139 | a shown button passes the store's role check and moves the loan one step along the lifecycle |
| Dashboard.DigitRun | src/pages/Dashboard.tsx:38 | the length of the maximal run of digits at a position |
| Dashboard.FormatNumberIsGrouped | src/pages/Dashboard.tsx:37-39 | the regular expression writes the sign and then the magnitude's digits in groups of three from the right |
| Dashboard.RemoveCommasOfGrouped | src/pages/Dashboard.tsx:37-39 | grouping only inserts commas |
| Dashboard.GroupedIsWellGrouped | src/pages/Dashboard.tsx:37-39 | the grouping has a leading group of 1-3 digits and then comma-led groups of exactly three |
| Dashboard.WellGroupedIsGrouped | src/pages/Dashboard.tsx:37-39 | every well-grouped numeral is the grouping of its digits, so the grouping is unique |
| Dashboard.FormatNumberRoundTrip | src/pages/Dashboard.tsx:37-39 | `FormatNumber`: removing the commas gives back `toString`'s output |
| Dashboard.FormatNumberWellGrouped | src/pages/Dashboard.tsx:37-39 | a non-negative number comes out well grouped |
| Dashboard.FormatNegative | src/pages/Dashboard.tsx:37-39 | a negative number is its magnitude's text behind a minus sign, with no comma after the sign |
| Dashboard.FormatNumberThousands | src/pages/Dashboard.tsx:37-39 | numbers below 1000 are unchanged; from 1000 up a comma appears |
| Dashboard.RoleBeforeSignIn | src/pages/Dashboard.tsx:28-34 | `RoleAfter` (the role state after the effect has seen each value of the signed-in user in turn) is "user" until somebody signs in |
| Dashboard.RoleOfLastSignIn | src/pages/Dashboard.tsx:28-34 | afterwards `RoleAfter` is the role of the last user who signed in, whoever is signed in now |
| Dashboard.HandlersFollowLastSignIn | src/pages/Dashboard.tsx:113-114 | the handlers go exactly to the roles the store lets through, judged by the last user who signed in |
| Dashboard.NoHandlersBeforeSignIn | src/pages/Dashboard.tsx:113-114 | before anyone signs in, neither handler is passed |
| Dashboard.RoleOutlivesSignOut | src/pages/Dashboard.tsx:28-34 | after an admin signs out the page still hands out both handlers |
| Sidebar.ItemsForSpec | src/components/layout/Sidebar.tsx:151-153 | the role filter keeps, in order, exactly the entries that list the role, each as often as it occurs |
| Sidebar.SignedInSeesOwnEntries | src/components/layout/Sidebar.tsx:151-153 | `FilteredNavItems`: a signed-in user sees exactly the entries listing their role |
| Sidebar.NobodySignedInSeesNoEntries | src/components/layout/Sidebar.tsx:151-153 | with nobody signed in the menu is empty |
| Sidebar.EveryEntryListsAdmin | src/components/layout/Sidebar.tsx:39-148 | every entry lists the admin role |
| Sidebar.AdminSeesEverything | src/components/layout/Sidebar.tsx:39-153 | an admin sees all eighteen entries |
| Sidebar.UserMenu | src/components/layout/Sidebar.tsx:39-153 | a regular user sees Dashboard, Loans, Savings and E-signature |
| Sidebar.VerifierMenu | src/components/layout/Sidebar.tsx:39-153 | a verifier sees nine entries and none of the admin-only ones |

## Left out

- Toasts, the `isLoading` flags and the one-second `setTimeout` delays are left out. Each async operation is one atomic step.
- React's render cycle is left out. So is the stale-closure race in which two quick updates read the same `loans` snapshot.
- Local storage and `JSON.parse` are left out. The restored user is a constructor parameter. Writes to local storage on sign-in and sign-out are not modelled.
- The random seed data is left out. `LoanProvider.constructor` takes any twenty loans that satisfy the generator's constraints (`MockSeed`): ids "1" .. "20", the fixed names, amounts that are multiples of 500 below 50,000,000, one of the three purposes, and any status.
- Dates and times are opaque strings passed in by the caller. Locale formatting is not modelled.
- Avatar URLs, `chartData` and the chart components are left out, because no modelled operation reads or changes them. The dashboard charts read `chartData` and the header and sidebar show the avatar; those are display only.
- Amounts are mathematical integers. The application form passes `parseFloat` of free text to `applyForLoan` (src/components/loans/LoanApplicationForm.tsx, lines 28-30 and 58), so fractional amounts can reach the store. The model excludes them. It also leaves out how `formatNumber` treats them: its regular expression groups the fraction digits too, so 551500.1234 becomes "551,500.1,234". JavaScript numbers are doubles, so very large amounts would also lose precision.
- Text.IntToString: does not model `toString`'s exponent form for magnitudes of 10^21 and above.
- Text.ToLower: lower-cases ASCII letters only, not the full Unicode case mapping of `toLowerCase`.
- AuthContext.AuthProvider.Login: the password parameter is accepted and ignored, as in the source. Password storage and checking do not exist.
- The form validation schemas, the admin panel page and the apply page are left out. The badge label's `toUpperCase` and all styling beyond the badge's class are left out too.
- LoanTable.Pager.SelectRowsPerPage: requires one of the three offered sizes. The select element offers no others, so `Number` on arbitrary text is not modelled.
