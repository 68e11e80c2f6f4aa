/** The payment-method manager: the search and the 'Importados'/'Sistema' groups of its list,
    the gallery of uploaded icons in the form, the protection of the methods with the fixed ids
    `pm_pix`, `pm_cash` and `pm_other`, and the confirmed deletion, which moves the method's
    transactions to 'Outro'. The methods seeded for a new user are stored with generated ids,
    so the id test does not protect them. */
module PaymentMethods {
  import opened Wrappers
  import opened Seqs
  import opened Text
  import opened Model
  import opened FinanceData
  import ManagerLists

  function MethodName(m: PaymentMethod): string
  {
    m.name
  }

  function MethodIcon(m: PaymentMethod): Option<string>
  {
    m.customIcon
  }

  /** `filteredPm`: a blank query keeps the list; any other keeps, in order, the methods whose
      lower-cased name contains the lower-cased, trimmed query. */
  function FilteredMethods(methods: seq<PaymentMethod>, query: string): (r: seq<PaymentMethod>)
    ensures Trim(Lower(query)) == [] ==> r == methods
    ensures Trim(Lower(query)) != [] ==>
              forall m :: m in r <==> m in methods && Contains(Lower(m.name), Trim(Lower(query)))
    ensures Subsequence(r, methods)
  {
    ManagerLists.SearchSpec(methods, MethodName, query);
    ManagerLists.Search(methods, MethodName, query)
  }

  /** `categorizedList`: the methods with an uploaded icon, and the others; the two groups
      split the filtered list without overlap, each in its order. */
  function CategorizedList(filtered: seq<PaymentMethod>): (r: (seq<PaymentMethod>, seq<PaymentMethod>))
    ensures multiset(r.0) + multiset(r.1) == multiset(filtered)
    ensures forall m :: !(m in r.0 && m in r.1)
    ensures Subsequence(r.0, filtered) && Subsequence(r.1, filtered)
    ensures forall m :: m in r.0 <==> m in filtered && ManagerLists.HasIcon(m.customIcon)
  {
    ManagerLists.PartitionSpec(filtered, MethodIcon);
    (ManagerLists.Imported(filtered, MethodIcon), ManagerLists.System(filtered, MethodIcon))
  }

  /** `existingCustomIcons`: every uploaded icon of a method, once, in the order in which the
      methods first use them. */
  method ExistingCustomIcons(methods: seq<PaymentMethod>) returns (icons: seq<string>)
    ensures NoDuplicates(icons)
    ensures forall s :: s in icons <==>
              exists i :: 0 <= i < |methods| && ManagerLists.HasIcon(MethodIcon(methods[i]))
                                             && MethodIcon(methods[i]).value == s
    ensures var p := ManagerLists.PresentIcons(methods, MethodIcon);
              forall i, j :: 0 <= i < j < |icons| ==>
                icons[i] in p && icons[j] in p && IndexOf(p, icons[i]) < IndexOf(p, icons[j])
  {
    icons := ManagerLists.CollectIcons(methods, MethodIcon);
    ManagerLists.IconsSpec(methods, MethodIcon);
  }

  const ProtectedIds: seq<string> := ["pm_pix", "pm_cash", "pm_other"]

  /** `isProtected` of the form opened on `pm` (nothing when a new method is being added): a
      saved method whose id is one of the fixed system ids. */
  predicate IsProtected(pm: Option<PaymentMethod>)
  {
    pm.Some? && pm.value.id != "" && pm.value.id in ProtectedIds
  }

  /** The delete button of the form: its click asks for the deletion of this id. */
  function DeleteButton(pm: Option<PaymentMethod>, hasOnDelete: bool): (r: Option<string>)
    ensures r.Some? <==> pm.Some? && pm.value.id != "" && hasOnDelete && !IsProtected(pm)
    ensures r.Some? ==> r.value == pm.value.id && r.value !in ProtectedIds
  {
    if pm.Some? && pm.value.id != "" && !IsProtected(pm) && hasOnDelete then Some(pm.value.id)
    else None
  }

  /** The delete flow of the manager: the id from the form's button and, once confirmed, the
      store's `deletePaymentMethod`; any other outcome leaves the store as it was. */
  method DeleteFromForm(store: FinanceStore, pm: Option<PaymentMethod>, confirmed: bool)
    returns (requested: Option<string>)
    modifies store
    requires store.Valid()
    ensures store.Valid()
    ensures requested == DeleteButton(pm, true)
    ensures requested.Some? && confirmed ==>
              (store.transactions, store.paymentMethods)
                == DeleteMethodRows(old(store.transactions), old(store.paymentMethods), requested.value)
    ensures !(requested.Some? && confirmed) ==>
              store.transactions == old(store.transactions) && store.paymentMethods == old(store.paymentMethods)
    ensures store.goals == old(store.goals) && store.goalTransactions == old(store.goalTransactions)
    ensures store.categories == old(store.categories) && store.nextId == old(store.nextId)
    ensures store.cardClosingDay == old(store.cardClosingDay) && store.initialBalance == old(store.initialBalance)
    ensures store.initialInvestment == old(store.initialInvestment)
  {
    requested := DeleteButton(pm, true);
    if requested.Some? && confirmed {
      store.DeletePaymentMethod(requested.value);
    }
  }
}
