/** The sidebar (src/components/layout/Sidebar.tsx): the navigation entries and
    which of them each role is shown. */
module Sidebar {
  import opened Wrappers
  import opened Seqs
  import opened AuthContext

  datatype NavItem = NavItem(path: string, name: string, roles: seq<UserRole>)

  const DashboardEntry := NavItem("/", "Dashboard", [Admin, Verifier, RegularUser])
  const BorrowersEntry := NavItem("/borrowers", "Borrowers", [Admin, Verifier])
  const LoansEntry := NavItem("/loans", "Loans", [Admin, Verifier, RegularUser])
  const RepaymentsEntry := NavItem("/repayments", "Repayments", [Admin, Verifier])
  const LoanParametersEntry := NavItem("/parameters", "Loan Parameters", [Admin])
  const AccountingEntry := NavItem("/accounting", "Accounting", [Admin])
  const ReportsEntry := NavItem("/reports", "Reports", [Admin, Verifier])
  const CollateralEntry := NavItem("/collateral", "Collateral", [Admin, Verifier])
  const AdminManagementEntry := NavItem("/admin", "Admin Management", [Admin])
  const AccessConfigurationEntry := NavItem("/access", "Access Configuration", [Admin])
  const SavingsEntry := NavItem("/savings", "Savings", [Admin, Verifier, RegularUser])
  const OtherIncomesEntry := NavItem("/incomes", "Other Incomes", [Admin])
  const PayrollEntry := NavItem("/payroll", "Payroll", [Admin])
  const ExpensesEntry := NavItem("/expenses", "Expenses", [Admin])
  const ESignatureEntry := NavItem("/signature", "E-signature", [Admin, Verifier, RegularUser])
  const InvestorAccountsEntry := NavItem("/investor", "Investor Accounts", [Admin])
  const CalendarEntry := NavItem("/calendar", "Calendar", [Admin, Verifier])
  const SettingsEntry := NavItem("/settings", "Settings", [Admin])

  const NavItems: seq<NavItem> := [
    DashboardEntry,
    BorrowersEntry,
    LoansEntry,
    RepaymentsEntry,
    LoanParametersEntry,
    AccountingEntry,
    ReportsEntry,
    CollateralEntry,
    AdminManagementEntry,
    AccessConfigurationEntry,
    SavingsEntry,
    OtherIncomesEntry,
    PayrollEntry,
    ExpensesEntry,
    ESignatureEntry,
    InvestorAccountsEntry,
    CalendarEntry,
    SettingsEntry
  ]

  /** `item.roles.includes(role)`. */
  function Lists(role: UserRole): NavItem -> bool
  {
    (item: NavItem) => role in item.roles
  }

  /** `items.filter(item => item.roles.includes(role))`. */
  function ItemsFor(items: seq<NavItem>, role: UserRole): seq<NavItem>
  {
    Filter(items, Lists(role))
  }

  /** The filter keeps, in order, exactly the entries that list the role, each as
      often as it occurs. */
  lemma ItemsForSpec(items: seq<NavItem>, role: UserRole)
    ensures var r := ItemsFor(items, role);
            && IsSubseq(r, items)
            && (forall k :: 0 <= k < |r| ==> role in r[k].roles)
            && (forall k :: 0 <= k < |items| && role in items[k].roles ==> items[k] in r)
            && (forall item :: multiset(r)[item] == if role in item.roles then multiset(items)[item] else 0)
  {
    FilterSpec(items, Lists(role));
  }

  /** The entries on show: none when nobody is signed in. */
  function FilteredNavItems(currentUser: Option<User>): seq<NavItem>
  {
    if currentUser.None? then [] else ItemsFor(NavItems, currentUser.value.role)
  }

  /** A signed-in user sees the entries, in their order, that list their role, and no others. */
  lemma SignedInSeesOwnEntries(user: User)
    ensures var shown := FilteredNavItems(Some(user));
            && IsSubseq(shown, NavItems)
            && (forall k :: 0 <= k < |shown| ==> user.role in shown[k].roles)
            && (forall k :: 0 <= k < |NavItems| && user.role in NavItems[k].roles ==> NavItems[k] in shown)
  {
    ItemsForSpec(NavItems, user.role);
  }

  lemma NobodySignedInSeesNoEntries()
    ensures FilteredNavItems(None) == []
  {
  }

  lemma ItemsForAllListed(items: seq<NavItem>, role: UserRole)
    requires forall k :: 0 <= k < |items| ==> role in items[k].roles
    ensures ItemsFor(items, role) == items
  {
    FilterKeepsAll(items, Lists(role));
  }

  lemma EveryEntryListsAdmin()
    ensures forall k :: 0 <= k < |NavItems| ==> Admin in NavItems[k].roles
  {
  }

  /** Every entry lists the admin role, so an admin sees the whole menu. */
  lemma AdminSeesEverything(user: User)
    requires user.role == Admin
    ensures FilteredNavItems(Some(user)) == NavItems
  {
    EveryEntryListsAdmin();
    ItemsForAllListed(NavItems, Admin);
  }

  lemma ItemsForConcat(a: seq<NavItem>, b: seq<NavItem>, role: UserRole)
    ensures ItemsFor(a + b, role) == ItemsFor(a, role) + ItemsFor(b, role)
  {
    FilterConcat(a, b, Lists(role));
  }

  lemma ItemsForCons(item: NavItem, rest: seq<NavItem>, role: UserRole)
    ensures ItemsFor([item] + rest, role) == Kept(item, role) + ItemsFor(rest, role)
  {
    assert ([item] + rest)[1..] == rest;
  }

  function Kept(item: NavItem, role: UserRole): seq<NavItem>
  {
    if role in item.roles then [item] else []
  }

  lemma ItemsForThree(i0: NavItem, i1: NavItem, i2: NavItem, role: UserRole)
    ensures ItemsFor([i0, i1, i2], role) == Kept(i0, role) + Kept(i1, role) + Kept(i2, role)
  {
    assert [i0, i1, i2] == [i0] + [i1, i2] && [i1, i2] == [i1] + [i2] && [i2] == [i2] + [];
    ItemsForCons(i2, [], role);
    ItemsForCons(i1, [i2], role);
    ItemsForCons(i0, [i1, i2], role);
  }

  lemma ItemsForSix(i0: NavItem, i1: NavItem, i2: NavItem, i3: NavItem, i4: NavItem, i5: NavItem, role: UserRole)
    ensures ItemsFor([i0, i1, i2, i3, i4, i5], role) ==
      Kept(i0, role) + Kept(i1, role) + Kept(i2, role) + Kept(i3, role) + Kept(i4, role) + Kept(i5, role)
  {
    assert [i0, i1, i2, i3, i4, i5] == [i0, i1, i2] + [i3, i4, i5];
    ItemsForConcat([i0, i1, i2], [i3, i4, i5], role);
    ItemsForThree(i0, i1, i2, role);
    ItemsForThree(i3, i4, i5, role);
  }

  /** The menu in three runs of six entries, for the concrete menu proofs. */
  const NavFirst: seq<NavItem> :=
    [DashboardEntry, BorrowersEntry, LoansEntry, RepaymentsEntry, LoanParametersEntry, AccountingEntry]
  const NavSecond: seq<NavItem> :=
    [ReportsEntry, CollateralEntry, AdminManagementEntry, AccessConfigurationEntry, SavingsEntry, OtherIncomesEntry]
  const NavThird: seq<NavItem> :=
    [PayrollEntry, ExpensesEntry, ESignatureEntry, InvestorAccountsEntry, CalendarEntry, SettingsEntry]

  lemma ItemsForThirds(role: UserRole)
    ensures ItemsFor(NavItems, role) ==
      ItemsFor(NavFirst, role) + ItemsFor(NavSecond, role) + ItemsFor(NavThird, role)
  {
    assert NavItems == NavFirst + NavSecond + NavThird;
    ItemsForConcat(NavFirst + NavSecond, NavThird, role);
    ItemsForConcat(NavFirst, NavSecond, role);
  }

  lemma UserFirst()
    ensures ItemsFor(NavFirst, RegularUser) == [DashboardEntry, LoansEntry]
  {
    ItemsForSix(DashboardEntry, BorrowersEntry, LoansEntry, RepaymentsEntry, LoanParametersEntry, AccountingEntry, RegularUser);
  }

  lemma UserSecond()
    ensures ItemsFor(NavSecond, RegularUser) == [SavingsEntry]
  {
    ItemsForSix(ReportsEntry, CollateralEntry, AdminManagementEntry, AccessConfigurationEntry, SavingsEntry, OtherIncomesEntry, RegularUser);
  }

  lemma UserThird()
    ensures ItemsFor(NavThird, RegularUser) == [ESignatureEntry]
  {
    ItemsForSix(PayrollEntry, ExpensesEntry, ESignatureEntry, InvestorAccountsEntry, CalendarEntry, SettingsEntry, RegularUser);
  }

  lemma VerifierFirst()
    ensures ItemsFor(NavFirst, Verifier) == [DashboardEntry, BorrowersEntry, LoansEntry, RepaymentsEntry]
  {
    ItemsForSix(DashboardEntry, BorrowersEntry, LoansEntry, RepaymentsEntry, LoanParametersEntry, AccountingEntry, Verifier);
  }

  lemma VerifierSecond()
    ensures ItemsFor(NavSecond, Verifier) == [ReportsEntry, CollateralEntry, SavingsEntry]
  {
    ItemsForSix(ReportsEntry, CollateralEntry, AdminManagementEntry, AccessConfigurationEntry, SavingsEntry, OtherIncomesEntry, Verifier);
  }

  lemma VerifierThird()
    ensures ItemsFor(NavThird, Verifier) == [ESignatureEntry, CalendarEntry]
  {
    ItemsForSix(PayrollEntry, ExpensesEntry, ESignatureEntry, InvestorAccountsEntry, CalendarEntry, SettingsEntry, Verifier);
  }

  /** A borrower sees four entries. */
  lemma UserMenu(user: User)
    requires user.role == RegularUser
    ensures FilteredNavItems(Some(user)) == [DashboardEntry, LoansEntry, SavingsEntry, ESignatureEntry]
  {
    ItemsForThirds(RegularUser);
    UserFirst();
    UserSecond();
    UserThird();
  }

  /** A verifier sees nine entries and none of the admin-only ones. */
  lemma VerifierMenu(user: User)
    requires user.role == Verifier
    ensures FilteredNavItems(Some(user)) ==
      [DashboardEntry, BorrowersEntry, LoansEntry, RepaymentsEntry, ReportsEntry, CollateralEntry, SavingsEntry, ESignatureEntry, CalendarEntry]
  {
    ItemsForThirds(Verifier);
    VerifierFirst();
    VerifierSecond();
    VerifierThird();
  }
}
