/**
 * The row mapper of `ApiHH.__get_rows_from_json` and `ApiHH.__get_salary`:
 * each decoded vacancy becomes one six-column row.
 */
module RowMapper {
  import opened Wrappers

  /** The `salary` object: each sub-field may be `null`. */
  datatype Salary = Salary(from: Option<int>, to: Option<int>, currency: Option<string>)

  datatype Area = Area(name: string)

  /** A decoded entry of a page's `items` list. */
  datatype Vacancy = Vacancy(name: string, salary: Option<Salary>, area: Area, publishedAt: string)

  /** One decoded result page: the `pages` count and the `items` list. */
  datatype Page = Page(pages: int, items: seq<Vacancy>)

  /** A row entry: the salary bounds stay JSON numbers, everything else is text. */
  datatype Cell = Text(text: string) | Number(value: int)

  type Row = seq<Cell>

  const Blank: Cell := Text("")

  /** The `from` bound a vacancy carries, a `null` salary counting as all sub-fields `null`. */
  function SalaryFrom(salary: Option<Salary>): Option<int> {
    if salary.Some? then salary.value.from else None
  }

  function SalaryTo(salary: Option<Salary>): Option<int> {
    if salary.Some? then salary.value.to else None
  }

  function SalaryCurrency(salary: Option<Salary>): Option<string> {
    if salary.Some? then salary.value.currency else None
  }

  /** Reads a salary bound back out of its cell: a number, or nothing for a blank. */
  function NumberIn(c: Cell): Option<int> {
    if c.Number? then Some(c.value) else None
  }

  function NumberOrBlank(x: Option<int>): Cell {
    if x.Some? then Number(x.value) else Blank
  }

  function TextOrBlank(x: Option<string>): Cell {
    if x.Some? then Text(x.value) else Blank
  }

  /**
   * `__get_salary`: three cells. A `null` salary gives three blanks; otherwise
   * each of from, to and currency is its value, or a blank when that one
   * sub-field is `null`, independently of the other two.
   */
  function GetSalary(salary: Option<Salary>): (cells: seq<Cell>)
    ensures |cells| == 3
    ensures salary.None? ==> cells == [Blank, Blank, Blank]
    ensures NumberIn(cells[0]) == SalaryFrom(salary) && NumberIn(cells[1]) == SalaryTo(salary)
    ensures cells[0].Text? ==> cells[0] == Blank
    ensures cells[1].Text? ==> cells[1] == Blank
    ensures cells[2].Text?
    ensures SalaryCurrency(salary).Some? ==> cells[2].text == SalaryCurrency(salary).value
    ensures SalaryCurrency(salary).None? ==> cells[2] == Blank
  {
    if salary.None? then
      [Blank, Blank, Blank]
    else
      [NumberOrBlank(salary.value.from), NumberOrBlank(salary.value.to), TextOrBlank(salary.value.currency)]
  }

  /** A `null` salary and a salary whose three sub-fields are all `null` give the same cells. */
  lemma NullSalaryIsAllNullFields()
    ensures GetSalary(None) == GetSalary(Some(Salary(None, None, None)))
  {
  }

  /**
   * The row yielded for one item: `[name, from, to, currency, area.name,
   * published_at]`; the name, the area's name and the publication time are
   * copied unchanged, and the salary columns read back as the item's salary.
   */
  function ItemRow(v: Vacancy): (row: Row)
    ensures |row| == 6
    ensures row[0] == Text(v.name) && row[4] == Text(v.area.name) && row[5] == Text(v.publishedAt)
    ensures row[1..4] == GetSalary(v.salary)
    ensures NumberIn(row[1]) == SalaryFrom(v.salary) && NumberIn(row[2]) == SalaryTo(v.salary)
  {
    [Text(v.name)] + GetSalary(v.salary) + [Text(v.area.name), Text(v.publishedAt)]
  }

  /** The rows of a list of items: one per item, in item order. */
  function ItemRows(items: seq<Vacancy>): (rows: seq<Row>)
    ensures |rows| == |items|
    ensures forall i :: 0 <= i < |items| ==> rows[i] == ItemRow(items[i])
  {
    seq(|items|, i requires 0 <= i < |items| => ItemRow(items[i]))
  }

  lemma ItemRowsAppend(a: seq<Vacancy>, b: seq<Vacancy>)
    ensures ItemRows(a + b) == ItemRows(a) + ItemRows(b)
  {
  }

  /** `__get_rows_from_json`: the loop over the page's `items`, one row per item, in order. */
  method GetRowsFromJson(page: Page) returns (rows: seq<Row>)
    ensures |rows| == |page.items|
    ensures forall i :: 0 <= i < |rows| ==> rows[i] == ItemRow(page.items[i])
    ensures rows == ItemRows(page.items)
  {
    rows := [];
    for k := 0 to |page.items|
      invariant |rows| == k
      invariant forall i :: 0 <= i < k ==> rows[i] == ItemRow(page.items[i])
    {
      var salary := GetSalary(page.items[k].salary);
      rows := rows + [[Text(page.items[k].name)] + salary + [Text(page.items[k].area.name), Text(page.items[k].publishedAt)]];
    }
  }
}
