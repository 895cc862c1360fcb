/**
 * The persisted entities of the expense tracker and the enum universes of
 * backend/interfaces/interfaces.ts. Amounts are whole numbers (cents).
 */
module Domain {

  datatype Gender = Male | Female | Diverse

  datatype PaymentType = Cash | Debit | Credit | Twint

  datatype Category = Investment | Saving | Expense

  /** The wire name of a category, as the enum's string value. */
  function CategoryName(c: Category): (r: string)
    ensures |r| >= 6
  {
    match c
    case Investment => "investment"
    case Saving => "saving"
    case Expense => "expense"
  }

  datatype User = User(
    id: int,
    username: string,
    name: string,
    password: string,
    profilePicture: string,
    gender: Gender)

  datatype Transaction = Transaction(
    id: int,
    userId: int,
    description: string,
    paymentType: PaymentType,
    category: Category,
    amount: int,
    location: string,
    date: string)

  datatype Tag = Tag(id: int, name: string)

  datatype CustomTag = CustomTag(id: int, name: string, searchTerm: string)
}
