/**
 * backend/resolvers/transaction.resolver.ts over an in-memory transaction
 * table: the queries `transactions`, `transaction`, `categoryStatistics`,
 * the mutations `createTransaction`, `updateTransaction`,
 * `deleteTransaction`, and the `Transaction.user` field. The current user
 * (the session's user, or null) is a parameter of the operations that use it.
 */
module TransactionResolver {
  import opened Wrappers
  import opened Domain
  import opened JsNumber
  import opened UserResolver

  // Every resolver wraps whatever it throws into one fixed message.
  const ErrGetTransactions := "Error getting transactions"
  const ErrGetTransaction := "Error getting transaction"
  const ErrStatistics := "Internal server error"
  const ErrCreate := "Error creating transaction"
  const ErrUpdate := "Error updating transaction"
  const ErrDelete := "Error deleting transaction"

  datatype CreateTransactionInput = CreateTransactionInput(
    description: string,
    paymentType: PaymentType,
    category: Category,
    amount: int,
    date: string,
    location: Option<string>)

  /** An update names the row by its id string; None marks a field the input leaves out. */
  datatype UpdateTransactionInput = UpdateTransactionInput(
    transactionId: string,
    description: Option<string>,
    paymentType: Option<PaymentType>,
    category: Option<Category>,
    amount: Option<int>,
    location: Option<string>,
    date: Option<string>)

  datatype CategoryStatistic = CategoryStatistic(category: Category, totalAmount: int)

  // ---------------------------------------------------------------- queries

  /** findMany where userId: the rows of one owner, in table order. */
  function OwnedBy(rows: seq<Transaction>, userId: int): (r: seq<Transaction>)
    ensures forall t :: t in r <==> t in rows && t.userId == userId
    ensures |r| <= |rows|
    ensures forall t :: multiset(r)[t] == if t.userId == userId then multiset(rows)[t] else 0
  {
    if rows == [] then []
    else
      assert rows == [rows[0]] + rows[1..];
      (if rows[0].userId == userId then [rows[0]] else []) + OwnedBy(rows[1..], userId)
  }

  /**
   * `transactions`: exactly the current user's rows; with no current user the
   * 'Unauthorized' throw is caught and re-thrown as the generic message.
   */
  function ListTransactions(rows: seq<Transaction>, current: Option<User>): (r: Result<seq<Transaction>>)
    ensures current.None? <==> r.Err?
    ensures r.Err? ==> r == Err(ErrGetTransactions)
    ensures r.Ok? ==> forall t :: t in r.value <==> t in rows && t.userId == current.value.id
    ensures r.Ok? ==> forall t ::
      multiset(r.value)[t] == if t.userId == current.value.id then multiset(rows)[t] else 0
  {
    match current
    case None => Err(ErrGetTransactions)
    case Some(user) => Ok(OwnedBy(rows, user.id))
  }

  /** findUnique by id. */
  function TransactionById(rows: seq<Transaction>, id: int): (r: Option<Transaction>)
    ensures r.Some? ==> r.value in rows && r.value.id == id
    ensures r.None? <==> forall t :: t in rows ==> t.id != id
  {
    match IndexOfId(rows, id)
    case None => None
    case Some(k) => Some(rows[k])
  }

  /** The position of the row with that id. */
  function IndexOfId(rows: seq<Transaction>, id: int): (k: Option<nat>)
    ensures k.Some? ==> k.value < |rows| && rows[k.value].id == id
    ensures k.None? <==> forall t :: t in rows ==> t.id != id
  {
    if rows == [] then None
    else if rows[0].id == id then Some(0)
    else match IndexOfId(rows[1..], id)
      case None => None
      case Some(k) => Some(k + 1)
  }

  /** `transaction(transactionId)`: the row with the parsed id, or null; a NaN id makes the lookup throw. */
  function FindTransaction(rows: seq<Transaction>, transactionId: string): (r: Result<Option<Transaction>>)
    ensures ParseInt(transactionId).None? <==> r.Err?
    ensures r.Err? ==> r == Err(ErrGetTransaction)
    ensures r.Ok? && r.value.Some? ==> r.value.value in rows && ParseInt(transactionId) == Some(r.value.value.id)
    ensures r.Ok? && r.value.None? ==> forall t :: t in rows ==> ParseInt(transactionId) != Some(t.id)
  {
    match ParseInt(transactionId)
    case None => Err(ErrGetTransaction)
    case Some(id) => Ok(TransactionById(rows, id))
  }

  /** The `user` field of a Transaction: the owner's row, or null. */
  function TransactionUser(users: seq<User>, t: Transaction): (r: Option<User>)
    ensures r.Some? ==> r.value in users && r.value.id == t.userId
    ensures r.None? ==> forall u :: u in users ==> u.id != t.userId
  {
    UserById(users, t.userId)
  }

  // ------------------------------------------------------------- statistics

  /** The categories of txs, each once, in order of first occurrence (the key order of a JS object). */
  function FirstSeen(txs: seq<Transaction>): seq<Category>
  {
    if txs == [] then []
    else
      var prefix := FirstSeen(txs[..|txs| - 1]);
      var c := txs[|txs| - 1].category;
      if c in prefix then prefix else prefix + [c]
  }

  /** FirstSeen lists exactly the categories present, each once. */
  lemma {:induction false} FirstSeenMembers(txs: seq<Transaction>)
    ensures forall c :: c in FirstSeen(txs) <==> exists t :: t in txs && t.category == c
    ensures Distinct(FirstSeen(txs))
  {
    if txs != [] {
      var init := txs[..|txs| - 1];
      FirstSeenMembers(init);
      assert txs == init + [txs[|txs| - 1]];
      assert forall t :: t in txs <==> t in init || t == txs[|txs| - 1];
    }
  }

  /** The sum of the amounts of the transactions in category c. */
  function CategoryTotal(txs: seq<Transaction>, c: Category): int
  {
    if txs == [] then 0
    else CategoryTotal(txs[..|txs| - 1], c) + (if txs[|txs| - 1].category == c then txs[|txs| - 1].amount else 0)
  }

  /** The sum of all amounts. */
  function TotalAmount(txs: seq<Transaction>): int
  {
    if txs == [] then 0 else TotalAmount(txs[..|txs| - 1]) + txs[|txs| - 1].amount
  }

  /** What `categoryStatistics` reports for a list of transactions: one entry per category present. */
  function Statistics(txs: seq<Transaction>): seq<CategoryStatistic>
  {
    var ks := FirstSeen(txs);
    seq(|ks|, k requires 0 <= k < |ks| => CategoryStatistic(ks[k], CategoryTotal(txs, ks[k])))
  }

  /** The sum of the reported totals. */
  function SumOfTotals(stats: seq<CategoryStatistic>): int
  {
    if stats == [] then 0 else SumOfTotals(stats[..|stats| - 1]) + stats[|stats| - 1].totalAmount
  }

  /** Σ over ks of the category totals of txs. */
  function SumOver(ks: seq<Category>, txs: seq<Transaction>): int
  {
    if ks == [] then 0 else SumOver(ks[..|ks| - 1], txs) + CategoryTotal(txs, ks[|ks| - 1])
  }

  ghost predicate Distinct(ks: seq<Category>)
  {
    forall i, j :: 0 <= i < j < |ks| ==> ks[i] != ks[j]
  }

  /** Appending one transaction adds its amount once to the sum over distinct categories that include its own. */
  lemma {:induction false} SumOverAppend(ks: seq<Category>, txs: seq<Transaction>, t: Transaction)
    requires Distinct(ks)
    ensures SumOver(ks, txs + [t]) == SumOver(ks, txs) + (if t.category in ks then t.amount else 0)
  {
    if ks != [] {
      var init, last := ks[..|ks| - 1], ks[|ks| - 1];
      assert last !in init;
      assert forall c :: c in ks <==> c in init || c == last;
      SumOverAppend(init, txs, t);
      assert (txs + [t])[..|txs + [t]| - 1] == txs;
    }
  }

  /** Summing the category totals over distinct categories covering every transaction gives the grand total. */
  lemma {:induction false} SumOverCovering(ks: seq<Category>, txs: seq<Transaction>)
    requires Distinct(ks)
    requires forall t :: t in txs ==> t.category in ks
    ensures SumOver(ks, txs) == TotalAmount(txs)
  {
    if txs == [] {
      SumOverEmpty(ks);
    } else {
      var init, last := txs[..|txs| - 1], txs[|txs| - 1];
      SumOverCovering(ks, init);
      assert init + [last] == txs;
      SumOverAppend(ks, init, last);
    }
  }

  lemma {:induction false} SumOverEmpty(ks: seq<Category>)
    ensures SumOver(ks, []) == 0
  {
    if ks != [] {
      SumOverEmpty(ks[..|ks| - 1]);
    }
  }

  /** The reported totals, summed, are SumOver the reported categories. */
  lemma {:induction false} SumOfTotalsIsSumOver(ks: seq<Category>, txs: seq<Transaction>)
    ensures SumOfTotals(seq(|ks|, k requires 0 <= k < |ks| => CategoryStatistic(ks[k], CategoryTotal(txs, ks[k]))))
         == SumOver(ks, txs)
  {
    if ks != [] {
      var init := ks[..|ks| - 1];
      var stats := seq(|ks|, k requires 0 <= k < |ks| => CategoryStatistic(ks[k], CategoryTotal(txs, ks[k])));
      SumOfTotalsIsSumOver(init, txs);
      assert stats[..|stats| - 1] == seq(|init|, k requires 0 <= k < |init| => CategoryStatistic(init[k], CategoryTotal(txs, init[k])));
    }
  }

  /** No amount is lost or counted twice: the totals of all entries add up to the sum of all amounts. */
  lemma StatisticsConserveTotal(txs: seq<Transaction>)
    ensures SumOfTotals(Statistics(txs)) == TotalAmount(txs)
  {
    var ks := FirstSeen(txs);
    FirstSeenMembers(txs);
    SumOfTotalsIsSumOver(ks, txs);
    SumOverCovering(ks, txs);
  }

  /** One entry for every category present among the transactions, and none for an absent category. */
  lemma StatisticsCategories(txs: seq<Transaction>)
    ensures forall t :: t in txs ==> exists s :: s in Statistics(txs) && s.category == t.category
    ensures forall s :: s in Statistics(txs) ==> exists t :: t in txs && t.category == s.category
  {
    var stats := Statistics(txs);
    var ks := FirstSeen(txs);
    FirstSeenMembers(txs);
    forall t | t in txs ensures exists s :: s in stats && s.category == t.category {
      assert t.category in ks;
      var k :| 0 <= k < |ks| && ks[k] == t.category;
      assert stats[k].category == t.category;
    }
    forall s | s in stats ensures exists t :: t in txs && t.category == s.category {
      var k :| 0 <= k < |stats| && stats[k] == s;
      assert ks[k] in ks;
    }
  }

  /** Each category has at most one entry, and its total is the sum of that category's amounts. */
  lemma StatisticsUnique(txs: seq<Transaction>)
    ensures forall i, j :: 0 <= i < j < |Statistics(txs)| ==> Statistics(txs)[i].category != Statistics(txs)[j].category
    ensures forall s :: s in Statistics(txs) ==> s.totalAmount == CategoryTotal(txs, s.category)
  {
    FirstSeenMembers(txs);
  }

  /** The index of the first transaction of category c, or |txs| when there is none. */
  function FirstIndex(txs: seq<Transaction>, c: Category): (i: nat)
    ensures i <= |txs|
    ensures i < |txs| ==> txs[i].category == c
    ensures forall j :: 0 <= j < i ==> txs[j].category != c
  {
    if txs == [] then 0
    else if txs[0].category == c then 0
    else 1 + FirstIndex(txs[1..], c)
  }

  /** Appending a transaction does not move the first occurrence of a category already present. */
  lemma {:induction false} FirstIndexAppend(init: seq<Transaction>, last: Transaction, c: Category)
    ensures c in FirstSeen(init) ==> FirstIndex(init + [last], c) == FirstIndex(init, c) < |init|
    ensures c !in FirstSeen(init) && c == last.category ==> FirstIndex(init + [last], c) == |init|
  {
    var txs := init + [last];
    FirstSeenMembers(init);
    var a, b := FirstIndex(txs, c), FirstIndex(init, c);
    if c in FirstSeen(init) {
      var t :| t in init && t.category == c;
      var k :| 0 <= k < |init| && init[k] == t;
      assert b <= k;
      assert txs[b] == init[b];
    } else if c == last.category {
      assert txs[|init|] == last;
      assert forall j :: 0 <= j < |init| ==> txs[j] == init[j];
    }
  }

  /** Entries appear in the order in which their categories first occur among the transactions. */
  lemma {:induction false} FirstSeenOrder(txs: seq<Transaction>)
    ensures forall i, j :: 0 <= i < j < |FirstSeen(txs)| ==>
      FirstIndex(txs, FirstSeen(txs)[i]) < FirstIndex(txs, FirstSeen(txs)[j])
  {
    if txs != [] {
      var init, last := txs[..|txs| - 1], txs[|txs| - 1];
      assert txs == init + [last];
      var p := FirstSeen(init);
      FirstSeenOrder(init);
      forall c | c in p
        ensures FirstIndex(txs, c) == FirstIndex(init, c) < |init|
      {
        FirstIndexAppend(init, last, c);
      }
      if last.category !in p {
        FirstIndexAppend(init, last, last.category);
      }
    }
  }

  /** A category that never occurs totals 0. */
  lemma {:induction false} CategoryTotalAbsent(txs: seq<Transaction>, c: Category)
    requires forall t :: t in txs ==> t.category != c
    ensures CategoryTotal(txs, c) == 0
  {
    if txs != [] {
      CategoryTotalAbsent(txs[..|txs| - 1], c);
    }
  }

  lemma FirstSeenAppend(txs: seq<Transaction>, t: Transaction)
    ensures FirstSeen(txs + [t]) == if t.category in FirstSeen(txs) then FirstSeen(txs) else FirstSeen(txs) + [t.category]
    ensures forall c :: CategoryTotal(txs + [t], c) == CategoryTotal(txs, c) + (if t.category == c then t.amount else 0)
  {
    assert (txs + [t])[..|txs|] == txs;
  }

  /** A JS object (a map with its key insertion order) holding the category sums of done. */
  ghost predicate Grouped(done: seq<Transaction>, keys: seq<Category>, totals: map<Category, int>)
  {
    keys == FirstSeen(done) &&
    (forall c :: c in totals <==> c in keys) &&
    (forall c :: c in totals ==> totals[c] == CategoryTotal(done, c))
  }

  /** Adding one transaction's amount to its category's sum (a new key goes last) keeps the object grouped. */
  lemma GroupedStep(done: seq<Transaction>, keys: seq<Category>, totals: map<Category, int>, t: Transaction)
    requires Grouped(done, keys, totals)
    ensures var c := t.category;
      Grouped(done + [t],
              if c in totals then keys else keys + [c],
              totals[c := (if c in totals then totals[c] else 0) + t.amount])
  {
    FirstSeenAppend(done, t);
    if t.category !in totals {
      FirstSeenMembers(done);
      CategoryTotalAbsent(done, t.category);
    }
  }

  /** The entries of a grouped object are the statistics. */
  lemma GroupedEntries(txs: seq<Transaction>, keys: seq<Category>, totals: map<Category, int>)
    requires Grouped(txs, keys, totals)
    ensures seq(|keys|, k requires 0 <= k < |keys| => CategoryStatistic(keys[k], totals[keys[k]])) == Statistics(txs)
  {
  }

  /**
   * The grouping loop of `categoryStatistics`: a JS object (modelled as a
   * map with its key insertion order) accumulates each category's sum; a key
   * whose running sum is 0 is falsy and is set to 0 again, which changes nothing.
   */
  method GroupByCategory(txs: seq<Transaction>) returns (stats: seq<CategoryStatistic>)
    ensures stats == Statistics(txs)
  {
    var keys: seq<Category> := [];
    var totals: map<Category, int> := map[];
    var i := 0;
    while i < |txs|
      invariant 0 <= i <= |txs|
      invariant Grouped(txs[..i], keys, totals)
    {
      var t := txs[i];
      GroupedStep(txs[..i], keys, totals, t);
      assert txs[..i + 1] == txs[..i] + [t];
      if t.category !in totals || totals[t.category] == 0 {
        if t.category !in totals {
          keys := keys + [t.category];
        }
        totals := totals[t.category := 0];
      }
      totals := totals[t.category := totals[t.category] + t.amount];
      i := i + 1;
    }
    assert txs[..i] == txs;
    GroupedEntries(txs, keys, totals);
    stats := seq(|keys|, k requires 0 <= k < |keys| => CategoryStatistic(keys[k], totals[keys[k]]));
  }

  // ---------------------------------------------------------------- the table

  /** The transaction table. Rows are kept in id order; ids come from an auto-increment counter. */
  class TransactionTable {
    var rows: seq<Transaction>
    var nextId: int

    ghost predicate Valid()
      reads this
    {
      IdsAscendingBelow(rows, nextId)
    }

    constructor ()
      ensures Valid() && rows == [] && nextId == 1
    {
      rows := [];
      nextId := 1;
    }

    /** `categoryStatistics`: the statistics of the current user's rows; without a current user, the wrapped error. */
    method CategoryStatistics(current: Option<User>) returns (r: Result<seq<CategoryStatistic>>)
      ensures current.None? ==> r == Err(ErrStatistics)
      ensures current.Some? ==> r == Ok(Statistics(OwnedBy(rows, current.value.id)))
    {
      if current.None? {
        return Err(ErrStatistics);
      }
      var stats := GroupByCategory(OwnedBy(rows, current.value.id));
      r := Ok(stats);
    }

    /**
     * `createTransaction`: with a current user, adds one row carrying the
     * input's fields, the user's id and location "" when the input has none
     * or an empty one; otherwise fails with the wrapped message and adds nothing.
     */
    method CreateTransaction(current: Option<User>, input: CreateTransactionInput) returns (r: Result<Transaction>)
      requires Valid()
      modifies this
      ensures Valid()
      ensures current.None? ==> r == Err(ErrCreate) && rows == old(rows) && nextId == old(nextId)
      ensures current.Some? ==> r.Ok? && rows == old(rows) + [r.value] && nextId == old(nextId) + 1
      ensures current.Some? ==> r.value == Transaction(
        old(nextId), current.value.id, input.description, input.paymentType, input.category,
        input.amount, if input.location.Some? then input.location.value else "", input.date)
      ensures r.Ok? ==> forall t :: t in old(rows) ==> t.id != r.value.id
    {
      if current.None? {
        return Err(ErrCreate);
      }
      var location := if input.location.Some? && input.location.value != "" then input.location.value else "";
      var t := Transaction(nextId, current.value.id, input.description, input.paymentType,
                           input.category, input.amount, location, input.date);
      rows := rows + [t];
      nextId := nextId + 1;
      r := Ok(t);
    }

    /**
     * `updateTransaction`: rewrites the row named by the input with the
     * fields the input supplies; a NaN or unknown id fails and changes nothing.
     */
    method UpdateTransaction(input: UpdateTransactionInput) returns (r: Result<Transaction>)
      requires Valid()
      modifies this
      ensures Valid() && nextId == old(nextId)
      ensures r.Err? <==> ParseInt(input.transactionId).None? ||
                          TransactionById(old(rows), ParseInt(input.transactionId).value).None?
      ensures r.Err? ==> r == Err(ErrUpdate) && rows == old(rows)
      ensures r.Ok? ==>
        var k := IndexOfId(old(rows), ParseInt(input.transactionId).value).value;
        r.value == Patch(old(rows)[k], input) && rows == old(rows)[k := r.value]
    {
      var id := ParseInt(input.transactionId);
      if id.None? {
        return Err(ErrUpdate);
      }
      var k := IndexOfId(rows, id.value);
      if k.None? {
        return Err(ErrUpdate);
      }
      var t := Patch(rows[k.value], input);
      AscendingReplace(rows, nextId, k.value, t);
      rows := rows[k.value := t];
      r := Ok(t);
    }

    /** `deleteTransaction`: removes the row with that id and returns it; a NaN or unknown id fails and changes nothing. */
    method DeleteTransaction(transactionId: string) returns (r: Result<Transaction>)
      requires Valid()
      modifies this
      ensures Valid() && nextId == old(nextId)
      ensures r.Err? <==> ParseInt(transactionId).None? || TransactionById(old(rows), ParseInt(transactionId).value).None?
      ensures r.Err? ==> r == Err(ErrDelete) && rows == old(rows)
      ensures r.Ok? ==>
        var k := IndexOfId(old(rows), ParseInt(transactionId).value).value;
        r.value == old(rows)[k] && rows == RemoveAt(old(rows), k)
    {
      var id := ParseInt(transactionId);
      if id.None? {
        return Err(ErrDelete);
      }
      var k := IndexOfId(rows, id.value);
      if k.None? {
        return Err(ErrDelete);
      }
      AscendingRemove(rows, nextId, k.value);
      r := Ok(rows[k.value]);
      rows := RemoveAt(rows, k.value);
    }
  }

  /** Ids strictly increase along the table and stay below the next id to hand out. */
  ghost predicate IdsAscendingBelow(rows: seq<Transaction>, next: int)
  {
    (forall i, j :: 0 <= i < j < |rows| ==> rows[i].id < rows[j].id) &&
    (forall i :: 0 <= i < |rows| ==> rows[i].id < next)
  }

  lemma AscendingReplace(rows: seq<Transaction>, next: int, k: nat, t: Transaction)
    requires IdsAscendingBelow(rows, next) && k < |rows| && t.id == rows[k].id
    ensures IdsAscendingBelow(rows[k := t], next)
  {
    assert forall i :: 0 <= i < |rows| ==> rows[k := t][i].id == rows[i].id;
  }

  /** The table with the row at position `k` taken out and every other row kept in order. */
  function RemoveAt(rows: seq<Transaction>, k: nat): (r: seq<Transaction>)
    requires k < |rows|
    ensures |r| == |rows| - 1
    ensures forall i :: 0 <= i < k ==> r[i] == rows[i]
    ensures forall i :: k <= i < |r| ==> r[i] == rows[i + 1]
  {
    if k == 0 then rows[1..] else [rows[0]] + RemoveAt(rows[1..], k - 1)
  }

  lemma AscendingRemove(rows: seq<Transaction>, next: int, k: nat)
    requires IdsAscendingBelow(rows, next) && k < |rows|
    ensures IdsAscendingBelow(RemoveAt(rows, k), next)
  {
    var r := RemoveAt(rows, k);
    assert forall i :: 0 <= i < |r| ==> r[i] == rows[if i < k then i else i + 1];
  }

  /** In an id-ordered table, the lookup by a row's id finds that row. */
  lemma UniqueIdsFound(rows: seq<Transaction>, k: nat)
    requires k < |rows|
    requires forall i, j :: 0 <= i < j < |rows| ==> rows[i].id < rows[j].id
    ensures IndexOfId(rows, rows[k].id) == Some(k)
    ensures TransactionById(rows, rows[k].id) == Some(rows[k])
  {
    assert rows[k] in rows;
    var j := IndexOfId(rows, rows[k].id).value;
    assert !(j < k) && !(k < j);
  }

  /** In an id-ordered table, removing the row at `k` removes exactly the rows with its id. */
  lemma RemoveAtRemovesId(rows: seq<Transaction>, k: nat)
    requires k < |rows|
    requires forall i, j :: 0 <= i < j < |rows| ==> rows[i].id < rows[j].id
    ensures forall t :: t in RemoveAt(rows, k) <==> t in rows && t.id != rows[k].id
  {
    var r := RemoveAt(rows, k);
    forall t | t in r
      ensures t in rows && t.id != rows[k].id
    {
      var i :| 0 <= i < |r| && r[i] == t;
      if i < k {
        assert r[i] == rows[i];
      } else {
        assert r[i] == rows[i + 1];
      }
    }
    forall t | t in rows && t.id != rows[k].id
      ensures t in r
    {
      var i :| 0 <= i < |rows| && rows[i] == t;
      if i < k {
        assert r[i] == t;
      } else {
        assert i != k by { assert t.id != rows[k].id; }
        assert k <= i - 1 < |r| && r[i - 1] == rows[i];
      }
    }
  }

  /** The row after an update: each supplied field replaced, every other field kept. */
  function Patch(t: Transaction, input: UpdateTransactionInput): (p: Transaction)
    ensures p.id == t.id && p.userId == t.userId
    ensures p.description == (if input.description.Some? then input.description.value else t.description)
    ensures p.paymentType == (if input.paymentType.Some? then input.paymentType.value else t.paymentType)
    ensures p.category == (if input.category.Some? then input.category.value else t.category)
    ensures p.amount == (if input.amount.Some? then input.amount.value else t.amount)
    ensures p.location == (if input.location.Some? then input.location.value else t.location)
    ensures p.date == (if input.date.Some? then input.date.value else t.date)
  {
    t.(description := Or(input.description, t.description),
       paymentType := Or(input.paymentType, t.paymentType),
       category := Or(input.category, t.category),
       amount := Or(input.amount, t.amount),
       location := Or(input.location, t.location),
       date := Or(input.date, t.date))
  }

  /** The supplied value, or the kept one (undefined fields are left alone by the store). */
  function Or<T>(supplied: Option<T>, kept: T): T
  {
    if supplied.Some? then supplied.value else kept
  }
}
