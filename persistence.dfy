/**
 * The PostgreSQL-backed product repository. The connection pool is not
 * modelled: each call to the database is replaced by the outcome it had,
 * passed in as a parameter, and the statements the repository sends are
 * returned so that their text, their arguments and whether they were sent
 * at all can be stated.
 */
module Persistence {
  import opened Wrappers
  import opened Format
  import opened Domain

  /** A value bound to a `$k` placeholder. */
  datatype Arg = TextArg(text: string) | FloatArg(number: real) | IdArg(id: int)

  /** A parameterised SQL statement and the values of its placeholders, in order. */
  datatype Statement = Statement(sql: string, args: seq<Arg>)

  /** What `QueryRow(...).Scan(...)` gave: the row, "no rows" (the NOT_FOUND error), or any other error. */
  datatype RowOutcome = Found(product: Product) | NoRows | RowFailed(message: string)

  /** What `Scan` gave for one row of a result set. */
  datatype ScanOutcome = Scanned(product: Product) | ScanFailed(message: string)

  /** What `Query` gave: an error, or the rows of the result set as they are scanned. */
  datatype QueryOutcome = QueryFailed(message: string) | Rows(scans: seq<ScanOutcome>)

  /** What `Exec` gave. */
  datatype ExecOutcome = ExecOk | ExecFailed(message: string)

  /** The statement a mutating operation sent, if it sent one, and the error it returned. */
  datatype Mutation = Mutation(issued: Option<Statement>, error: Option<string>)

  const SelectAllSql := "SELECT * FROM products"
  const SelectByStoreSql := "SELECT * FROM products WHERE store = $1"
  const InsertSql := "INSERT INTO products (name, price, discount, store) VALUES ($1, $2, $3, $4)"
  const DeleteSql := "DELETE FROM products WHERE id = $1"

  // ---------------------------------------------------------------- messages

  const NotFoundPrefix := "Product with id "
  const NotFoundSuffix := " not found"

  function NotFoundMessage(id: int): string {
    NotFoundPrefix + IntToString(id) + NotFoundSuffix
  }

  function LookupFailedMessage(id: int): string {
    "Error while getting product with id " + IntToString(id) + " not found"
  }

  function DeleteFailedMessage(id: int): string {
    "Error while deleting product with id " + IntToString(id)
  }

  function UpdateFailedMessage(id: int): string {
    "Error while updating product with id " + IntToString(id)
  }

  /** The not-found message names the identifier: different identifiers give different messages. */
  lemma NotFoundMessageInjective(a: int, b: int)
    ensures NotFoundMessage(a) == NotFoundMessage(b) ==> a == b
  {
    var ma, mb := NotFoundMessage(a), NotFoundMessage(b);
    assert ma[|NotFoundPrefix|..|ma| - |NotFoundSuffix|] == IntToString(a);
    assert mb[|NotFoundPrefix|..|mb| - |NotFoundSuffix|] == IntToString(b);
    IntToStringInjective(a, b);
  }

  /** A not-found error can never be mistaken for any of the storage-failure errors. */
  lemma NotFoundIsDistinguishable(a: int, b: int)
    ensures NotFoundMessage(a) != LookupFailedMessage(b)
    ensures NotFoundMessage(a) != DeleteFailedMessage(b)
    ensures NotFoundMessage(a) != UpdateFailedMessage(b)
  {
    assert NotFoundMessage(a)[0] == 'P';
    assert LookupFailedMessage(b)[0] == 'E';
    assert DeleteFailedMessage(b)[0] == 'E';
    assert UpdateFailedMessage(b)[0] == 'E';
  }

  // ------------------------------------------------------- single-row reads

  /** GetProductById: the scanned row, or an error that tells "no such row" from every other failure. */
  function GetProductById(productId: int, row: RowOutcome): (r: Result<Product, string>)
    ensures r.Ok? <==> row.Found?
    ensures row.Found? ==> r.value == row.product
    ensures row.NoRows? ==> r.error == NotFoundMessage(productId)
    ensures row.RowFailed? ==> r.error == LookupFailedMessage(productId)
  {
    match row
    case Found(p) => Ok(Product(p.id, p.name, p.price, p.discount, p.store))
    case NoRows => Err(NotFoundMessage(productId))
    case RowFailed(_) => Err(LookupFailedMessage(productId))
  }

  /** checkProductExists: every lookup failure, whatever its kind, becomes "not found". */
  function CheckProductExists(productId: int, row: RowOutcome): (r: Option<string>)
    ensures r.None? <==> row.Found?
    ensures r.Some? ==> r.value == NotFoundMessage(productId)
  {
    match GetProductById(productId, row)
    case Ok(_) => None
    case Err(_) => Some(NotFoundMessage(productId))
  }

  // ------------------------------------------------------------- insertion

  /**
   * AddProduct: always sends the INSERT, binding the four fields (never the
   * identifier, which the table assigns), and returns the database's own error.
   */
  function AddProduct(product: Product, exec: ExecOutcome): (r: Mutation)
    ensures r.issued.Some? && r.issued.value.sql == InsertSql
    ensures r.issued.value.args ==
              [TextArg(product.name), FloatArg(product.price), FloatArg(product.discount), TextArg(product.store)]
    ensures r.error.None? <==> exec.ExecOk?
    ensures exec.ExecFailed? ==> r.error == Some(exec.message)
  {
    var insert := Statement(InsertSql, [TextArg(product.name), FloatArg(product.price),
                                        FloatArg(product.discount), TextArg(product.store)]);
    match exec
    case ExecOk => Mutation(Some(insert), None)
    case ExecFailed(e) => Mutation(Some(insert), Some(e))
  }

  // --------------------------------------------------------------- deletion

  /** DeleteProductById: the existence check runs first; only when it passes is the DELETE sent. */
  function DeleteProductById(productId: int, row: RowOutcome, exec: ExecOutcome): (r: Mutation)
    ensures r.issued.None? <==> !row.Found?
    ensures !row.Found? ==> r.error == Some(NotFoundMessage(productId))
    ensures row.Found? ==> r.issued == Some(Statement(DeleteSql, [IdArg(productId)]))
    ensures row.Found? ==> (r.error.None? <==> exec.ExecOk?)
    ensures row.Found? && exec.ExecFailed? ==> r.error == Some(DeleteFailedMessage(productId))
  {
    var check := CheckProductExists(productId, row);
    if check.Some? then Mutation(None, check)
    else
      var delete := Statement(DeleteSql, [IdArg(productId)]);
      match exec
      case ExecOk => Mutation(Some(delete), None)
      case ExecFailed(_) => Mutation(Some(delete), Some(DeleteFailedMessage(productId)))
  }

  // -------------------------------------------------------- update statement

  datatype Column = NameColumn | PriceColumn | DiscountColumn | StoreColumn

  function ColumnName(c: Column): string {
    match c
    case NameColumn => "name"
    case PriceColumn => "price"
    case DiscountColumn => "discount"
    case StoreColumn => "store"
  }

  /** The position of a column in the order the statement lists them. */
  function ColumnRank(c: Column): nat {
    match c
    case NameColumn => 0
    case PriceColumn => 1
    case DiscountColumn => 2
    case StoreColumn => 3
  }

  /** A field counts as given when it is not its zero value. */
  predicate IsSet(p: Product, c: Column) {
    match c
    case NameColumn => p.name != ""
    case PriceColumn => p.price != 0.0
    case DiscountColumn => p.discount != 0.0
    case StoreColumn => p.store != ""
  }

  function ColumnValue(p: Product, c: Column): Arg {
    match c
    case NameColumn => TextArg(p.name)
    case PriceColumn => FloatArg(p.price)
    case DiscountColumn => FloatArg(p.discount)
    case StoreColumn => TextArg(p.store)
  }

  /** One `column = value` of the SET clause. */
  datatype Assignment = Assignment(column: Column, value: Arg)

  /** The columns in the order the statement considers them. */
  const Columns := [NameColumn, PriceColumn, DiscountColumn, StoreColumn]

  /** The assignments for those of `cs` that are given, in the order of `cs`. */
  function Given(p: Product, cs: seq<Column>): seq<Assignment> {
    if cs == [] then []
    else
      var c := cs[|cs| - 1];
      Given(p, cs[..|cs| - 1]) + (if IsSet(p, c) then [Assignment(c, ColumnValue(p, c))] else [])
  }

  /** The assignments the UPDATE carries. */
  function SetFields(p: Product): seq<Assignment> {
    Given(p, Columns)
  }

  /** Given(p, cs) is Given of all but the last column, then possibly the last column's assignment. */
  lemma GivenSnoc(p: Product, cs: seq<Column>)
    requires cs != []
    ensures var c := cs[|cs| - 1];
      Given(p, cs) == Given(p, cs[..|cs| - 1]) + (if IsSet(p, c) then [Assignment(c, ColumnValue(p, c))] else [])
  {
  }

  lemma {:induction false} GivenValues(p: Product, cs: seq<Column>)
    ensures forall i :: 0 <= i < |Given(p, cs)| ==> Given(p, cs)[i].value == ColumnValue(p, Given(p, cs)[i].column)
  {
    if cs != [] {
      GivenValues(p, cs[..|cs| - 1]);
    }
  }

  lemma {:induction false} GivenColumns(p: Product, cs: seq<Column>, d: Column)
    ensures (exists i :: 0 <= i < |Given(p, cs)| && Given(p, cs)[i].column == d) <==> d in cs && IsSet(p, d)
  {
    if cs != [] {
      var init, c := cs[..|cs| - 1], cs[|cs| - 1];
      GivenColumns(p, init, d);
      var fs, head := Given(p, cs), Given(p, init);
      assert cs == init + [c];
      GivenSnoc(p, cs);
      if d in cs && IsSet(p, d) {
        if d == c {
          assert fs[|fs| - 1].column == d;
        } else {
          assert d in init;
          var i :| 0 <= i < |head| && head[i].column == d;
          assert fs[i].column == d;
        }
      }
      if exists i :: 0 <= i < |fs| && fs[i].column == d {
        var i :| 0 <= i < |fs| && fs[i].column == d;
        if i < |head| {
          assert fs[i] == head[i];
          assert d in init;
          assert d in cs;
        } else {
          assert i == |head| && fs[i] == Assignment(c, ColumnValue(p, c)) && IsSet(p, c);
        }
      }
    }
  }

  /** Every assignment of Given(p, cs) is for a column of cs. */
  lemma {:induction false} GivenFrom(p: Product, cs: seq<Column>)
    ensures forall i :: 0 <= i < |Given(p, cs)| ==> Given(p, cs)[i].column in cs
  {
    if cs != [] {
      GivenFrom(p, cs[..|cs| - 1]);
    }
  }

  lemma {:induction false} GivenOrdered(p: Product, cs: seq<Column>)
    requires forall i, j :: 0 <= i < j < |cs| ==> ColumnRank(cs[i]) < ColumnRank(cs[j])
    ensures forall i, j :: 0 <= i < j < |Given(p, cs)| ==>
      ColumnRank(Given(p, cs)[i].column) < ColumnRank(Given(p, cs)[j].column)
  {
    if cs != [] {
      var init, c := cs[..|cs| - 1], cs[|cs| - 1];
      GivenOrdered(p, init);
      GivenFrom(p, init);
      var fs, head := Given(p, cs), Given(p, init);
      assert forall i :: 0 <= i < |head| ==> ColumnRank(head[i].column) < ColumnRank(c) by {
        forall i | 0 <= i < |head| ensures ColumnRank(head[i].column) < ColumnRank(c) {
          var k :| 0 <= k < |init| && init[k] == head[i].column;
          assert init[k] == cs[k];
        }
      }
      forall i, j | 0 <= i < j < |fs|
        ensures ColumnRank(fs[i].column) < ColumnRank(fs[j].column)
      {
        assert fs[i] == head[i];
        if j < |head| {
          assert fs[j] == head[j];
        }
      }
    }
  }

  /**
   * The statement assigns exactly the given fields, each with its own value,
   * in the column order name, price, discount, store.
   */
  lemma SetFieldsCharacterized(p: Product)
    ensures var fs := SetFields(p);
      && (forall c :: (exists i :: 0 <= i < |fs| && fs[i].column == c) <==> IsSet(p, c))
      && (forall i :: 0 <= i < |fs| ==> fs[i].value == ColumnValue(p, fs[i].column))
      && (forall i, j :: 0 <= i < j < |fs| ==> ColumnRank(fs[i].column) < ColumnRank(fs[j].column))
  {
    var fs := SetFields(p);
    GivenValues(p, Columns);
    GivenOrdered(p, Columns);
    forall c ensures (exists i :: 0 <= i < |fs| && fs[i].column == c) <==> IsSet(p, c) {
      assert Columns[ColumnRank(c)] == c;
      assert c in Columns;
      GivenColumns(p, Columns, c);
      assert fs == Given(p, Columns);
    }
  }

  const UpdateHead := "UPDATE products SET"

  function Placeholder(k: nat): string {
    "$" + NatToString(k)
  }

  function AssignmentText(a: Assignment, k: nat): string {
    ColumnName(a.column) + " = " + Placeholder(k)
  }

  /** The assignments joined by commas, their placeholders numbered k, k + 1, ... */
  function SetList(fs: seq<Assignment>, k: nat): string {
    if |fs| == 0 then ""
    else if |fs| == 1 then AssignmentText(fs[0], k)
    else SetList(fs[..|fs| - 1], k) + "," + AssignmentText(fs[|fs| - 1], k + |fs| - 1)
  }

  /** The values of the assignments, in order. */
  function Values(fs: seq<Assignment>): (vs: seq<Arg>)
    ensures |vs| == |fs| && forall i :: 0 <= i < |fs| ==> vs[i] == fs[i].value
  {
    seq(|fs|, i requires 0 <= i < |fs| => fs[i].value)
  }

  /**
   * The UPDATE text, as a reference: the SET list numbered from $1, then the
   * identifier's placeholder, one past the last field's. With no field given
   * the SET list is empty and the text is `UPDATE products SET WHERE id = $1`.
   */
  function UpdateSql(p: Product): (r: string)
    ensures |r| > |UpdateHead| && r[..|UpdateHead|] == UpdateHead
  {
    var fs := SetFields(p);
    (if fs == [] then UpdateHead else UpdateHead + " " + SetList(fs, 1)) + " WHERE id = " + Placeholder(|fs| + 1)
  }

  /** The UPDATE's arguments: the given fields' values, then the identifier. */
  function UpdateArgs(p: Product): (r: seq<Arg>)
    ensures |r| == |SetFields(p)| + 1 && r[|r| - 1] == IdArg(p.id)
  {
    Values(SetFields(p)) + [IdArg(p.id)]
  }

  /** The SET list as the update builds it: every assignment followed by a comma. */
  ghost function Terminated(fs: seq<Assignment>, k: nat): string {
    if fs == [] then ""
    else Terminated(fs[..|fs| - 1], k) + AssignmentText(fs[|fs| - 1], k + |fs| - 1) + ","
  }

  lemma TerminatedSnoc(fs: seq<Assignment>, a: Assignment, k: nat)
    ensures Terminated(fs + [a], k) == Terminated(fs, k) + AssignmentText(a, k + |fs|) + ","
  {
    assert (fs + [a])[..|fs|] == fs;
  }

  /** Taking off the trailing comma leaves exactly the comma-joined list. */
  lemma {:induction false} TerminatedIsSetList(fs: seq<Assignment>, k: nat)
    requires fs != []
    ensures Terminated(fs, k) == SetList(fs, k) + ","
  {
    if |fs| > 1 {
      TerminatedIsSetList(fs[..|fs| - 1], k);
    } else {
      assert fs[..0] == [];
    }
  }

  /** The partial statement after the assignments `fs` have been added, each followed by a comma. */
  ghost predicate Building(sql: string, args: seq<Arg>, argId: nat, fs: seq<Assignment>) {
    sql == UpdateHead + " " + Terminated(fs, 1) && args == Values(fs) && argId == |fs| + 1
  }

  /**
   * One `if` block of UpdateProduct: when the field is given, `column = $argId,`
   * is added to the text, the value to the arguments, and the counter advances.
   */
  method AddIfGiven(sql: string, args: seq<Arg>, argId: nat, given: bool, column: Column, value: Arg,
                    ghost fs: seq<Assignment>)
    returns (sql': string, args': seq<Arg>, argId': nat)
    requires Building(sql, args, argId, fs)
    ensures Building(sql', args', argId', fs + (if given then [Assignment(column, value)] else []))
  {
    if given {
      TerminatedSnoc(fs, Assignment(column, value), 1);
      ghost var text := AssignmentText(Assignment(column, value), argId);
      sql' := sql + AssignmentText(Assignment(column, value), argId) + ",";
      AppendAssociates(UpdateHead + " ", Terminated(fs, 1), text, ",");
      args' := args + [value];
      argId' := argId + 1;
      assert args' == Values(fs + [Assignment(column, value)]);
    } else {
      assert fs + [] == fs;
      sql', args', argId' := sql, args, argId;
    }
  }

  /**
   * The statement-building half of UpdateProduct: grows the text field by
   * field, numbering placeholders with a running counter, then drops the
   * trailing character and appends the WHERE clause.
   */
  method BuildUpdate(product: Product) returns (sql: string, args: seq<Arg>)
    ensures sql == UpdateSql(product)
    ensures args == UpdateArgs(product)
  {
    sql := UpdateHead + " ";
    args := [];
    var argId: nat := 1;
    ghost var fs: seq<Assignment> := [];
    assert Building(sql, args, argId, fs);

    ghost var name := if product.name != "" then [Assignment(NameColumn, TextArg(product.name))] else [];
    sql, args, argId := AddIfGiven(sql, args, argId, product.name != "", NameColumn, TextArg(product.name), fs);
    fs := fs + name;
    ghost var price := if product.price != 0.0 then [Assignment(PriceColumn, FloatArg(product.price))] else [];
    sql, args, argId := AddIfGiven(sql, args, argId, product.price != 0.0, PriceColumn, FloatArg(product.price), fs);
    fs := fs + price;
    ghost var discount := if product.discount != 0.0 then [Assignment(DiscountColumn, FloatArg(product.discount))] else [];
    sql, args, argId := AddIfGiven(sql, args, argId, product.discount != 0.0, DiscountColumn, FloatArg(product.discount), fs);
    fs := fs + discount;
    ghost var store := if product.store != "" then [Assignment(StoreColumn, TextArg(product.store))] else [];
    sql, args, argId := AddIfGiven(sql, args, argId, product.store != "", StoreColumn, TextArg(product.store), fs);
    fs := fs + store;
    SetFieldsSplit(product, name, price, discount, store);
    FinishUpdate(product, sql, args, argId, fs);

    // The last character is the comma after the last assignment, or the space after SET.
    sql := sql[..|sql| - 1] + " WHERE id = " + Placeholder(argId);
    args := args + [IdArg(product.id)];
  }

  /** Extending the column prefix by one column adds that column's assignment when it is given. */
  lemma GivenPrefix(p: Product, k: nat)
    requires 1 <= k <= |Columns|
    ensures var c := Columns[k - 1];
      Given(p, Columns[..k]) == Given(p, Columns[..k - 1]) + (if IsSet(p, c) then [Assignment(c, ColumnValue(p, c))] else [])
  {
    assert Columns[..k][..k - 1] == Columns[..k - 1];
  }

  /** The assignments, field by field, in the fields' own terms. */
  lemma SetFieldsSplit(p: Product, name: seq<Assignment>, price: seq<Assignment>,
                                    discount: seq<Assignment>, store: seq<Assignment>)
    requires name == if p.name != "" then [Assignment(NameColumn, TextArg(p.name))] else []
    requires price == if p.price != 0.0 then [Assignment(PriceColumn, FloatArg(p.price))] else []
    requires discount == if p.discount != 0.0 then [Assignment(DiscountColumn, FloatArg(p.discount))] else []
    requires store == if p.store != "" then [Assignment(StoreColumn, TextArg(p.store))] else []
    ensures SetFields(p) == name + price + discount + store
  {
    GivenPrefix(p, 1);
    assert Columns[..0] == [];
    GivenPrefix(p, 2);
    GivenPrefix(p, 3);
    GivenPrefix(p, 4);
    assert Columns[..4] == Columns;
  }

  /** Closing the statement: what is left once the trailing character goes and the WHERE clause comes. */
  lemma FinishUpdate(p: Product, sql: string, args: seq<Arg>, argId: nat, fs: seq<Assignment>)
    requires Building(sql, args, argId, fs) && fs == SetFields(p)
    ensures |sql| >= 1
    ensures sql[..|sql| - 1] + " WHERE id = " + Placeholder(argId) == UpdateSql(p)
    ensures args + [IdArg(p.id)] == UpdateArgs(p)
  {
    if fs != [] {
      TerminatedIsSetList(fs, 1);
      DropLast(UpdateHead + " " + SetList(fs, 1), ',');
    } else {
      DropLast(UpdateHead, ' ');
    }
  }

  lemma AppendAssociates(a: string, b: string, c: string, d: string)
    ensures (a + b) + c + d == a + (b + c + d)
  {
  }

  lemma DropLast(a: string, c: char)
    ensures (a + [c])[..|a|] == a
  {
  }

  // ------------------------------------------- what the UPDATE statement says

  /** Whether a string contains a comma. */
  predicate HasComma(s: string) {
    exists i :: 0 <= i < |s| && s[i] == ','
  }

  /** The pieces of a string between its commas. */
  function SplitCommas(s: string): (r: seq<string>)
    ensures |r| >= 1
  {
    if s == [] then [""]
    else if s[0] == ',' then [""] + SplitCommas(s[1..])
    else var rest := SplitCommas(s[1..]); [[s[0]] + rest[0]] + rest[1..]
  }

  lemma {:induction false} SplitCommasFree(s: string)
    requires !HasComma(s)
    ensures SplitCommas(s) == [s]
  {
    if s != [] {
      forall i | 0 <= i < |s[1..]| ensures s[1..][i] != ',' {
        assert s[1..][i] == s[i + 1];
      }
      SplitCommasFree(s[1..]);
      assert [s[0]] + s[1..] == s;
    }
  }

  /** Splitting at a comma splits the pieces. */
  lemma {:induction false} SplitCommasJoin(a: string, b: string)
    ensures SplitCommas(a + [','] + b) == SplitCommas(a) + SplitCommas(b)
  {
    var s := a + [','] + b;
    if a == [] {
      assert s == [','] + b && s[1..] == b;
    } else {
      assert s[0] == a[0] && s[1..] == a[1..] + [','] + b;
      SplitCommasJoin(a[1..], b);
      var rest, tail := SplitCommas(a[1..]), SplitCommas(s[1..]);
      assert tail == rest + SplitCommas(b);
      if a[0] != ',' {
        assert tail[0] == rest[0];
        assert tail[1..] == rest[1..] + SplitCommas(b);
      }
    }
  }

  lemma ColumnNameHasNoComma(c: Column)
    ensures !HasComma(ColumnName(c))
  {
    var name := ColumnName(c);
    forall i | 0 <= i < |name| ensures name[i] != ',' {
      match c
      case NameColumn =>
      case PriceColumn =>
      case DiscountColumn =>
      case StoreColumn =>
    }
  }

  lemma AssignmentTextHasNoComma(a: Assignment, k: nat)
    ensures !HasComma(AssignmentText(a, k))
  {
    var name, digits := ColumnName(a.column), NatToString(k);
    ColumnNameHasNoComma(a.column);
    var t := AssignmentText(a, k);
    assert t == name + " = $" + digits;
    forall i | 0 <= i < |t| ensures t[i] != ',' {
      if i < |name| {
        assert t[i] == name[i];
      } else if i >= |name| + 4 {
        assert t[i] == digits[i - |name| - 4];
        assert IsDigit(digits[i - |name| - 4]);
      }
    }
  }

  /**
   * Read back at its commas, the SET list is exactly the assignments in
   * order, the i-th one numbered k + i: placeholders are consecutive.
   */
  lemma {:induction false} SetListPieces(fs: seq<Assignment>, k: nat)
    requires fs != []
    ensures var pieces := SplitCommas(SetList(fs, k));
      |pieces| == |fs| && forall i :: 0 <= i < |fs| ==> pieces[i] == AssignmentText(fs[i], k + i)
  {
    var n := |fs|;
    var last := AssignmentText(fs[n - 1], k + n - 1);
    AssignmentTextHasNoComma(fs[n - 1], k + n - 1);
    SplitCommasFree(last);
    if n > 1 {
      var init := fs[..n - 1];
      SetListPieces(init, k);
      SplitCommasJoin(SetList(init, k), last);
      assert SetList(fs, k) == SetList(init, k) + [','] + last;
      var pieces := SplitCommas(SetList(fs, k));
      assert pieces == SplitCommas(SetList(init, k)) + [last];
      forall i | 0 <= i < n ensures pieces[i] == AssignmentText(fs[i], k + i) {
        if i < n - 1 {
          assert fs[i] == init[i];
        }
      }
    }
  }

  /**
   * The arguments line up with the placeholders: the i-th SET assignment
   * (placeholder $i+1) is bound to that field's value, and the WHERE
   * placeholder, numbered with the final length of the arguments, to the identifier.
   */
  lemma UpdateArgsMatchPlaceholders(p: Product)
    ensures var fs, args := SetFields(p), UpdateArgs(p);
      && |args| == |fs| + 1
      && (forall i :: 0 <= i < |fs| ==> args[i] == ColumnValue(p, fs[i].column))
      && args[|args| - 1] == IdArg(p.id)
    ensures var w := " WHERE id = " + Placeholder(|UpdateArgs(p)|);
      |UpdateSql(p)| >= |w| && UpdateSql(p)[|UpdateSql(p)| - |w|..] == w
  {
    SetFieldsCharacterized(p);
    var fs := SetFields(p);
    var head := if fs == [] then UpdateHead else UpdateHead + " " + SetList(fs, 1);
    var w := " WHERE id = " + Placeholder(|fs| + 1);
    assert UpdateSql(p) == head + w;
    assert (head + w)[|head|..] == w;
  }

  /** With no field given the statement degenerates to `UPDATE products SET WHERE id = $1`, bound to the identifier alone. */
  lemma NoFieldUpdate(p: Product)
    requires p.name == "" && p.price == 0.0 && p.discount == 0.0 && p.store == ""
    ensures UpdateSql(p) == "UPDATE products SET WHERE id = $1"
    ensures UpdateArgs(p) == [IdArg(p.id)]
  {
    SetFieldsSplit(p, [], [], [], []);
  }

  /** The comma-joined text of the four assignments, whatever their values. */
  lemma FourAssignmentsText(fs: seq<Assignment>)
    requires |fs| == 4
    requires fs[0].column == NameColumn && fs[1].column == PriceColumn
    requires fs[2].column == DiscountColumn && fs[3].column == StoreColumn
    ensures SetList(fs, 1) == "name = $1" + "," + "price = $2" + "," + "discount = $3" + "," + "store = $4"
  {
    assert fs[..3][..2][..1] == fs[..1] && fs[..3][..2] == fs[..2] && fs[..|fs| - 1] == fs[..3];
    assert AssignmentText(fs[0], 1) == "name = $1";
    assert AssignmentText(fs[1], 2) == "price = $2";
    assert AssignmentText(fs[2], 3) == "discount = $3";
    assert AssignmentText(fs[3], 4) == "store = $4";
    assert SetList(fs[..1], 1) == AssignmentText(fs[0], 1);
    assert SetList(fs[..2], 1) == SetList(fs[..1], 1) + "," + AssignmentText(fs[1], 2);
    assert SetList(fs[..3], 1) == SetList(fs[..2], 1) + "," + AssignmentText(fs[2], 3);
    assert SetList(fs, 1) == SetList(fs[..3], 1) + "," + AssignmentText(fs[3], 4);
  }

  /** With every field given: all four assignments, $1 to $4, then `WHERE id = $5`. */
  lemma AllFieldsUpdate(p: Product)
    requires p.name != "" && p.price != 0.0 && p.discount != 0.0 && p.store != ""
    ensures UpdateSql(p) == "UPDATE products SET " + "name = $1" + "," + "price = $2" + "," + "discount = $3" + ","
                            + "store = $4" + " WHERE id = $5"
    ensures UpdateArgs(p) == [TextArg(p.name), FloatArg(p.price), FloatArg(p.discount), TextArg(p.store), IdArg(p.id)]
  {
    var fs := [Assignment(NameColumn, TextArg(p.name)), Assignment(PriceColumn, FloatArg(p.price)),
               Assignment(DiscountColumn, FloatArg(p.discount)), Assignment(StoreColumn, TextArg(p.store))];
    SetFieldsSplit(p, fs[..1], fs[1..2], fs[2..3], fs[3..]);
    assert fs[..1] + fs[1..2] + fs[2..3] + fs[3..] == fs;
    FourAssignmentsText(fs);
    assert " WHERE id = " + Placeholder(5) == " WHERE id = $5";
  }

  /** The meaning of one assignment for a stored row: the column takes the value. */
  function Assign(row: Product, a: Assignment): Product {
    match (a.column, a.value)
    case (NameColumn, TextArg(t)) => row.(name := t)
    case (PriceColumn, FloatArg(x)) => row.(price := x)
    case (DiscountColumn, FloatArg(x)) => row.(discount := x)
    case (StoreColumn, TextArg(t)) => row.(store := t)
    case _ => row
  }

  /** The row after the assignments, applied in order; no assignment touches the identifier. */
  function ApplyAll(row: Product, fs: seq<Assignment>): (r: Product)
    ensures r.id == row.id
    decreases fs
  {
    if fs == [] then row else ApplyAll(Assign(row, fs[0]), fs[1..])
  }

  lemma {:induction false} ApplyAllAppend(row: Product, a: seq<Assignment>, b: seq<Assignment>)
    ensures ApplyAll(row, a + b) == ApplyAll(ApplyAll(row, a), b)
    decreases a
  {
    if a == [] {
      assert a + b == b;
    } else {
      assert (a + b)[1..] == a[1..] + b;
      ApplyAllAppend(Assign(row, a[0]), a[1..], b);
    }
  }

  /**
   * Applied to the stored row, the SET list overwrites exactly the given
   * fields and keeps every other one, and the identifier, as stored: a
   * zero price or an empty name leaves the stored value in place.
   */
  lemma UpdateOverwritesGivenFields(stored: Product, p: Product)
    ensures ApplyAll(stored, SetFields(p)) ==
      Product(stored.id,
              if p.name != "" then p.name else stored.name,
              if p.price != 0.0 then p.price else stored.price,
              if p.discount != 0.0 then p.discount else stored.discount,
              if p.store != "" then p.store else stored.store)
  {
    var name := if p.name != "" then [Assignment(NameColumn, TextArg(p.name))] else [];
    var price := if p.price != 0.0 then [Assignment(PriceColumn, FloatArg(p.price))] else [];
    var discount := if p.discount != 0.0 then [Assignment(DiscountColumn, FloatArg(p.discount))] else [];
    var store := if p.store != "" then [Assignment(StoreColumn, TextArg(p.store))] else [];
    SetFieldsSplit(p, name, price, discount, store);
    ApplyAllAppend(stored, name + price + discount, store);
    ApplyAllAppend(stored, name + price, discount);
    ApplyAllAppend(stored, name, price);
  }

  /** An update that gives only a name changes only the name. */
  lemma NameOnlyUpdate(stored: Product, p: Product)
    requires p.name != "" && p.price == 0.0 && p.discount == 0.0 && p.store == ""
    ensures ApplyAll(stored, SetFields(p)) == stored.(name := p.name)
  {
    UpdateOverwritesGivenFields(stored, p);
  }

  // ------------------------------------------------------------------ update

  /** UpdateProduct: the existence check runs first; only when it passes is the UPDATE built and sent. */
  method UpdateProduct(product: Product, row: RowOutcome, exec: ExecOutcome)
    returns (issued: Option<Statement>, err: Option<string>)
    ensures issued.None? <==> !row.Found?
    ensures !row.Found? ==> err == Some(NotFoundMessage(product.id))
    ensures row.Found? ==> issued == Some(Statement(UpdateSql(product), UpdateArgs(product)))
    ensures row.Found? ==> (err.None? <==> exec.ExecOk?)
    ensures row.Found? && exec.ExecFailed? ==> err == Some(UpdateFailedMessage(product.id))
  {
    var getErr := CheckProductExists(product.id, row);
    if getErr.Some? {
      return None, getErr;
    }
    var sql, args := BuildUpdate(product);
    issued := Some(Statement(sql, args));
    match exec
    case ExecOk => err := None;
    case ExecFailed(_) => err := Some(UpdateFailedMessage(product.id));
  }

  // ----------------------------------------------------------- result sets

  predicate AllScanned(scans: seq<ScanOutcome>) {
    forall i :: 0 <= i < |scans| ==> scans[i].Scanned?
  }

  /** The products of a result set, or nothing when some row fails to scan. */
  function ScanAll(scans: seq<ScanOutcome>): (r: Option<seq<Product>>)
    ensures r.Some? <==> AllScanned(scans)
    ensures r.Some? ==> |r.value| == |scans| && forall i :: 0 <= i < |scans| ==> r.value[i] == scans[i].product
  {
    if scans == [] then Some([])
    else match (scans[0], ScanAll(scans[1..]))
      case (Scanned(p), Some(rest)) => Some([p] + rest)
      case (Scanned(_), None) =>
        assert !AllScanned(scans) by {
          var i :| 0 <= i < |scans[1..]| && !scans[1..][i].Scanned?;
          assert !scans[i + 1].Scanned?;
        }
        None
      case (ScanFailed(_), _) => None
  }

  /** What extractProductsForRows returns: every row's product, or the empty list on a scan failure. */
  function Extracted(scans: seq<ScanOutcome>): seq<Product> {
    ScanAll(scans).GetOr([])
  }

  /** extractProductsForRows: one product per row, in row order; the empty list as soon as a scan fails. */
  method ExtractProductsForRows(scans: seq<ScanOutcome>) returns (products: seq<Product>)
    ensures products == Extracted(scans)
  {
    products := [];
    var i := 0;
    while i < |scans|
      invariant 0 <= i <= |scans|
      invariant forall j :: 0 <= j < i ==> scans[j].Scanned?
      invariant |products| == i && forall j :: 0 <= j < i ==> products[j] == scans[j].product
    {
      match scans[i]
      case ScanFailed(_) =>
        return [];
      case Scanned(p) =>
        products := products + [p];
      i := i + 1;
    }
  }

  /** GetAllProducts: every row of the table, or the empty list when the query fails. */
  method GetAllProducts(outcome: QueryOutcome) returns (query: Statement, products: seq<Product>)
    ensures query == Statement(SelectAllSql, [])
    ensures outcome.QueryFailed? ==> products == []
    ensures outcome.Rows? ==> products == Extracted(outcome.scans)
  {
    query := Statement(SelectAllSql, []);
    if outcome.QueryFailed? {
      return query, [];
    }
    products := ExtractProductsForRows(outcome.scans);
  }

  /** GetAllProductsByStore: the store name is bound to $1; the empty list when the query fails. */
  method GetAllProductsByStore(storeName: string, outcome: QueryOutcome) returns (query: Statement, products: seq<Product>)
    ensures query == Statement(SelectByStoreSql, [TextArg(storeName)])
    ensures outcome.QueryFailed? ==> products == []
    ensures outcome.Rows? ==> products == Extracted(outcome.scans)
  {
    query := Statement(SelectByStoreSql, [TextArg(storeName)]);
    if outcome.QueryFailed? {
      return query, [];
    }
    products := ExtractProductsForRows(outcome.scans);
  }

  // ------------------------------------------ a table that answers faithfully

  /** What QueryRow by identifier gives against a table that holds `table` and does not fail. */
  function LookupRow(table: seq<Product>, id: int): RowOutcome {
    match FindFirst(table, id)
    case Some(i) => Found(table[i])
    case None => NoRows
  }

  /** What a query gives against a result set `table` that scans without failure. */
  function RowsOf(table: seq<Product>): QueryOutcome {
    Rows(seq(|table|, i requires 0 <= i < |table| => Scanned(table[i])))
  }

  /** With no failure, reading all rows gives the rows themselves, in order. */
  lemma HealthyReadIsIdentity(table: seq<Product>)
    ensures Extracted(RowsOf(table).scans) == table
  {
    var scans := RowsOf(table).scans;
    assert AllScanned(scans);
    var r := ScanAll(scans).value;
    assert |r| == |table| && forall i :: 0 <= i < |table| ==> r[i] == table[i];
  }

  /** At an identifier the table does not hold, both reading and deleting fail with "not found" and nothing is deleted. */
  lemma AbsentIdIsNotFound(table: seq<Product>, id: int, exec: ExecOutcome)
    requires forall j :: 0 <= j < |table| ==> table[j].id != id
    ensures GetProductById(id, LookupRow(table, id)) == Err(NotFoundMessage(id))
    ensures DeleteProductById(id, LookupRow(table, id), exec) == Mutation(None, Some(NotFoundMessage(id)))
  {
  }

  /** At an identifier the table holds, reading returns the (first) row carrying it. */
  lemma PresentIdIsFound(table: seq<Product>, id: int, j: nat)
    requires j < |table| && table[j].id == id
    ensures GetProductById(id, LookupRow(table, id)).Ok?
    ensures GetProductById(id, LookupRow(table, id)).value.id == id
  {
  }

  /** The message a missing product gives, here for identifier 5. */
  lemma NotFoundMessageExample()
    ensures NotFoundMessage(5) == "Product with id 5 not found"
  {
  }
}
