/** The category manager: the search and the 'Importados'/'Sistema' groups of its list, the
    gallery of uploaded icons in the category form, the protection of the system categories
    against deletion, and the confirmed deletion, which hands the category's transactions to
    the fallback category. */
module Categories {
  import opened Wrappers
  import opened Seqs
  import opened Text
  import opened Model
  import opened FinanceData
  import ManagerLists

  function CategoryName(c: Category): string
  {
    c.name
  }

  function CategoryIcon(c: Category): Option<string>
  {
    c.customIcon
  }

  /** `filteredCategories`: a blank query keeps the list; any other keeps, in order, the
      categories whose lower-cased name contains the lower-cased, trimmed query. */
  function FilteredCategories(categories: seq<Category>, query: string): (r: seq<Category>)
    ensures Trim(Lower(query)) == [] ==> r == categories
    ensures Trim(Lower(query)) != [] ==>
              forall c :: c in r <==> c in categories && Contains(Lower(c.name), Trim(Lower(query)))
    ensures Subsequence(r, categories)
  {
    ManagerLists.SearchSpec(categories, CategoryName, query);
    ManagerLists.Search(categories, CategoryName, query)
  }

  /** `categorizedList`: the categories with an uploaded icon, and the others; the two groups
      split the filtered list without overlap, each in its order. */
  function CategorizedList(filtered: seq<Category>): (r: (seq<Category>, seq<Category>))
    ensures multiset(r.0) + multiset(r.1) == multiset(filtered)
    ensures forall c :: !(c in r.0 && c in r.1)
    ensures Subsequence(r.0, filtered) && Subsequence(r.1, filtered)
    ensures forall c :: c in r.0 <==> c in filtered && ManagerLists.HasIcon(c.customIcon)
  {
    ManagerLists.PartitionSpec(filtered, CategoryIcon);
    (ManagerLists.Imported(filtered, CategoryIcon), ManagerLists.System(filtered, CategoryIcon))
  }

  /** `existingCustomIcons`: every uploaded icon of a category, once, in the order in which
      the categories first use them. */
  method ExistingCustomIcons(categories: seq<Category>) returns (icons: seq<string>)
    ensures NoDuplicates(icons)
    ensures forall s :: s in icons <==>
              exists i :: 0 <= i < |categories| && ManagerLists.HasIcon(CategoryIcon(categories[i]))
                                                && CategoryIcon(categories[i]).value == s
    ensures var p := ManagerLists.PresentIcons(categories, CategoryIcon);
              forall i, j :: 0 <= i < j < |icons| ==>
                icons[i] in p && icons[j] in p && IndexOf(p, icons[i]) < IndexOf(p, icons[j])
  {
    icons := ManagerLists.CollectIcons(categories, CategoryIcon);
    ManagerLists.IconsSpec(categories, CategoryIcon);
  }

  const ProtectedIds: seq<string> := ["salary", "card-bill", "others", "investments"]
  const ProtectedNames: seq<string> := ["salário", "fatura de cartão", "outros", "investimentos"]

  /** `isProtected` of the form opened on `category` (nothing when a new category is being
      added): a saved category whose id, or whose lower-cased name, is one of the system's. */
  predicate IsProtected(category: Option<Category>)
  {
    && category.Some? && category.value.id != ""
    && (category.value.id in ProtectedIds || Lower(category.value.name) in ProtectedNames)
  }

  /** The form shows its delete button for a saved category that is not protected, when it
      was given a delete handler. */
  predicate DeleteButtonShown(category: Option<Category>, hasOnDelete: bool)
  {
    category.Some? && category.value.id != "" && !IsProtected(category) && hasOnDelete
  }

  const InvestmentsMessage: string :=
    "A categoria Investimentos não pode ser excluída pois é usada nos investimentos do sistema."

  /** What `attemptDelete` does: nothing, the notice about 'Investimentos', or the request to
      confirm the deletion of the category with this id. */
  datatype DeleteAttempt = NoAction | RefusedInvestments | AskConfirmation(id: string)

  function AttemptDelete(category: Option<Category>, hasOnDelete: bool): DeleteAttempt
  {
    if category.None? || category.value.id == "" || !hasOnDelete then NoAction
    else if Lower(category.value.name) == "investimentos" then RefusedInvestments
    else AskConfirmation(category.value.id)
  }

  /** A deletion is asked for exactly for a saved category with a handler and a name other
      than 'investimentos' in any case; that name is refused. */
  lemma AttemptDeleteSpec(category: Option<Category>, hasOnDelete: bool)
    ensures AttemptDelete(category, hasOnDelete).AskConfirmation? <==>
              category.Some? && category.value.id != "" && hasOnDelete && Lower(category.value.name) != "investimentos"
    ensures AttemptDelete(category, hasOnDelete).AskConfirmation? ==>
              AttemptDelete(category, hasOnDelete).id == category.value.id
    ensures category.Some? && Lower(category.value.name) == "investimentos" ==>
              !AttemptDelete(category, hasOnDelete).AskConfirmation?
  {
  }

  /** The delete button is hidden for every protected category, and whenever it is shown the
      click goes straight to the confirmation: the name check of `attemptDelete` never refuses
      a category whose button can be pressed. */
  lemma DeleteButtonSpec(category: Option<Category>, hasOnDelete: bool)
    ensures IsProtected(category) ==> !DeleteButtonShown(category, hasOnDelete)
    ensures DeleteButtonShown(category, hasOnDelete) ==>
              AttemptDelete(category, hasOnDelete) == AskConfirmation(category.value.id)
  {
    if DeleteButtonShown(category, hasOnDelete) {
      assert ProtectedNames[3] == "investimentos";
    }
  }

  /** The delete flow of the manager: the attempt from the form and, once confirmed, the
      store's `deleteCategory`; any other outcome leaves the store as it was. */
  method DeleteFromForm(store: FinanceStore, category: Option<Category>, confirmed: bool)
    returns (attempt: DeleteAttempt)
    modifies store
    requires store.Valid()
    ensures store.Valid()
    ensures attempt == AttemptDelete(category, true)
    ensures attempt.AskConfirmation? && confirmed ==>
              (store.transactions, store.categories)
                == DeleteCategoryRows(old(store.transactions), old(store.categories), attempt.id)
    ensures !(attempt.AskConfirmation? && confirmed) ==>
              store.transactions == old(store.transactions) && store.categories == old(store.categories)
    ensures store.goals == old(store.goals) && store.goalTransactions == old(store.goalTransactions)
    ensures store.paymentMethods == old(store.paymentMethods) && store.nextId == old(store.nextId)
    ensures store.cardClosingDay == old(store.cardClosingDay) && store.initialBalance == old(store.initialBalance)
    ensures store.initialInvestment == old(store.initialInvestment)
  {
    attempt := AttemptDelete(category, true);
    if attempt.AskConfirmation? && confirmed {
      store.DeleteCategory(attempt.id);
    }
  }
}
