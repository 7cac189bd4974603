/** Transactions (app/src/app/api/transactions/route.ts): the `POST` guard
    chain and the creation of one transaction. The `GET` ordering is
    `Ledger.ByDateDesc`. */
module TransactionsRoute {
  import opened Options
  import opened Text
  import opened Dates
  import opened Ledger

  /** The JSON value of `amount`: missing, a number or a string. */
  datatype AmountInput = Missing | Num(n: int) | Str(s: string)

  /** The request body; a `None` field is missing. */
  datatype Body = Body(kind: Option<string>, amount: AmountInput, date: Option<string>,
                       categoryId: Option<Id>, memo: Option<string>)

  /** JavaScript falsiness of the amount: missing, `0` or `""`. */
  predicate FalsyAmount(a: AmountInput) {
    a.Missing? || a == Num(0) || a == Str("")
  }

  /** `!body.type || !body.amount || !body.date || !body.categoryId`. */
  predicate MissingField(b: Body) {
    b.kind.None? || b.kind.value == "" || FalsyAmount(b.amount)
    || b.date.None? || b.date.value == "" || b.categoryId.None?
  }

  /** `Number(body.amount)`; `None` is NaN. */
  function AmountValue(a: AmountInput): (r: Option<int>)
    ensures a.Num? ==> r == Some(a.n)
  {
    match a
    case Missing => None
    case Num(n) => Some(n)
    case Str(s) => ParseNumber(s)
  }

  /** The answers other than 201: 400 for a missing field or NaN, 404 for an
      unknown category, and 500 when the store refuses `new Date(body.date)`,
      an invalid date. */
  datatype TransactionError = FieldsRequired | NotANumber | CategoryNotFound | CreateFailed

  function Rejection(cats: seq<Category>, b: Body): (r: Option<TransactionError>)
    ensures r == Some(FieldsRequired) <==> MissingField(b)
    ensures r.None? <==>
      && !MissingField(b) && AmountValue(b.amount).Some?
      && HasCategory(cats, b.categoryId.value) && ParseInstant(b.date.value).Some?
  {
    if MissingField(b) then Some(FieldsRequired)
    else if AmountValue(b.amount).None? then Some(NotANumber)
    else if FindById(cats, b.categoryId.value).None? then Some(CategoryNotFound)
    else if ParseInstant(b.date.value).None? then Some(CreateFailed)
    else None
  }

  /** The transaction an accepted body becomes: the numeric amount, the given
      category, the memo or `''`, and the UTC day of `new Date(body.date)`.
      A day text and a timestamp at midnight are stored exactly. */
  function Recorded(id: Id, b: Body): (t: Transaction)
    requires !MissingField(b) && AmountValue(b.amount).Some? && ParseInstant(b.date.value).Some?
    ensures t.id == id && t.categoryId == b.categoryId.value && t.amount == AmountValue(b.amount).value
    ensures t.memo == (if b.memo.Some? then b.memo.value else "")
    ensures t.kind == b.kind.value && IsCalendarDate(t.date)
    ensures ParseDay(b.date.value).Some? ==> t.date == ParseDay(b.date.value).value
    ensures Midnight(t.date) == ParseInstant(b.date.value).value <==> ParseInstant(b.date.value).value.millis == 0
  {
    var memo := if b.memo.Some? then b.memo.value else "";
    StoredDay(b.date.value);
    Transaction(id, b.kind.value, AmountValue(b.amount).value, ParseInstant(b.date.value).value.day, b.categoryId.value, memo)
  }

  /** A text `new Date` reads as a day is read as that day's midnight. */
  lemma StoredDay(s: string)
    ensures ParseDay(s).Some? ==> ParseInstant(s) == Some(Midnight(ParseDay(s).value))
  {
  }

  datatype PostResult = Rejected(error: TransactionError) | Created(transaction: Transaction)

  /** `POST`: a rejection leaves the store as it was; an accepted body adds one transaction. */
  method PostTransaction(store: Store, b: Body) returns (result: PostResult)
    requires store.Valid()
    modifies store
    ensures store.Valid()
    ensures result.Rejected? <==> Rejection(old(store.categories), b).Some?
    ensures result.Rejected? ==> result.error == Rejection(old(store.categories), b).value && unchanged(store)
    ensures result.Created? ==>
      && result.transaction == Recorded(old(store.nextId), b)
      && store.transactions == old(store.transactions) + [result.transaction]
      && store.categories == old(store.categories)
  {
    if MissingField(b) {
      return Rejected(FieldsRequired);
    }
    var amount := AmountValue(b.amount);
    if amount.None? {
      return Rejected(NotANumber);
    }
    var category := FindById(store.categories, b.categoryId.value);
    if category.None? {
      return Rejected(CategoryNotFound);
    }
    var date := ParseInstant(b.date.value);
    if date.None? {
      return Rejected(CreateFailed);
    }
    var memo := if b.memo.Some? then b.memo.value else "";
    var created := store.CreateTransaction(b.kind.value, amount.value, date.value.day, b.categoryId.value, memo);
    result := Created(created.value);
  }

  /** Nothing ties the transaction's type to its category's type: an income
      may be filed under an expense category. */
  lemma NoTypeMatchCheck(cats: seq<Category>, c: Category, amount: int, day: string)
    requires c in cats && c.kind == EXPENSE && amount != 0 && ParseInstant(day).Some?
    ensures Rejection(cats, Body(Some(INCOME), Num(amount), Some(day), Some(c.id), None)).None?
  {
    var found := FindById(cats, c.id);
  }

  /** A zero amount sent as the text `"0"` is truthy, so it passes the guard
      that a numeric `0` fails, and is stored as 0. */
  lemma ZeroTextPasses(cats: seq<Category>, b: Body)
    requires b.kind.Some? && b.kind.value != "" && b.date.Some? && b.date.value != "" && b.categoryId.Some?
    ensures Rejection(cats, b.(amount := Num(0))) == Some(FieldsRequired)
    ensures !MissingField(b.(amount := Str("0"))) && AmountValue(Str("0")) == Some(0)
  {
    assert Trim("0") == "0";
    assert AllDigits("0");
  }

  /** A date the client sends as `toISOString()` is accepted and stored as
      its day, for four-digit years. */
  lemma TimestampAccepted(cats: seq<Category>, b: Body, d: Date)
    requires !MissingField(b) && AmountValue(b.amount).Some? && HasCategory(cats, b.categoryId.value)
    requires IsCalendarDate(d) && 0 <= d.year <= 9999 && b.date == Some(IsoTimestamp(d))
    ensures Rejection(cats, b).None?
    ensures Recorded(0, b).date == d
  {
    IsoStringRoundTrip(Midnight(d));
  }
}
