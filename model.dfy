/** The records the application stores: transactions, goals and their movements, categories,
    payment methods and budgets. Money is in integer cents; record ids are opaque values;
    an optional boolean flag that is absent reads as `false`, as every use of it does. */
module Model {
  import opened Wrappers
  import opened Calendar

  datatype TransactionType = Receita | Despesa | Investimento

  /** The repetition of a recurring series: daily, weekly or monthly. */
  datatype Frequency = Diaria | Semanal | Mensal

  /** The payment method name that marks a credit-card purchase. */
  const CreditCard: string := "Cartão de Crédito"

  datatype Transaction = Transaction(
    id: nat,
    ttype: TransactionType,
    description: string,
    amount: int,
    categoryId: string,
    date: Date,
    paymentMethod: string,
    isRecurring: bool,
    frequency: Option<Frequency>,
    endDate: Option<Date>,
    recurringId: Option<nat>,
    isCardBillPayment: bool,
    isInvestmentWithdrawal: bool)

  /** A transaction as the entry form submits it, before the table gives it an id. */
  datatype NewTransaction = NewTransaction(
    ttype: TransactionType,
    description: string,
    amount: int,
    categoryId: string,
    date: Date,
    paymentMethod: string,
    isRecurring: bool,
    frequency: Option<Frequency>,
    endDate: Option<Date>,
    isCardBillPayment: bool,
    isInvestmentWithdrawal: bool)

  /** A submitted transaction with a row id and a series id: the form's fields spread into a row. */
  function WithIds(tx: NewTransaction, id: nat, rid: Option<nat>): Transaction
  {
    Transaction(id, tx.ttype, tx.description, tx.amount, tx.categoryId, tx.date, tx.paymentMethod,
      tx.isRecurring, tx.frequency, tx.endDate, rid, tx.isCardBillPayment, tx.isInvestmentWithdrawal)
  }

  datatype Goal = Goal(
    id: nat,
    name: string,
    targetAmount: int,
    currentAmount: int,
    deadline: Date,
    creationDate: Date,
    icon: string,
    customIcon: Option<string>,
    isAiGenerated: bool,
    aiBreakdown: Option<string>,
    aiSources: seq<string>)

  /** A deposit (positive amount) into a goal or a withdrawal (negative amount) from it. */
  datatype GoalTransaction = GoalTransaction(id: nat, goalId: nat, amount: int, date: Date, description: string)

  datatype Category = Category(
    id: string, name: string, icon: string, color: string, textColor: Option<string>, customIcon: Option<string>)

  datatype PaymentMethod = PaymentMethod(
    id: string, name: string, icon: string, color: string, textColor: Option<string>, customIcon: Option<string>)

  datatype Budget = Budget(categoryId: string, limit: int)

  datatype Sender = User | Bot

  datatype ChatMessage = ChatMessage(sender: Sender, text: string)

  function Amount(t: Transaction): int
  {
    t.amount
  }

  /** The net amount put into investments: a contribution adds, a withdrawal subtracts. */
  function NetInvestment(t: Transaction): int
  {
    if t.isInvestmentWithdrawal then -t.amount else t.amount
  }

  /** A credit-card purchase: an expense paid with the credit-card method. */
  predicate IsCardExpense(t: Transaction)
  {
    t.ttype == Despesa && t.paymentMethod == CreditCard
  }
}
