/** What the goods statements say to a reader of SQL: which rows a query selects, which cells an insert
    or an update writes. Nothing here knows how the programs print them. */
module SqlReader {
  import opened CText
  import opened Forms

  datatype Row = Row(id: real, name: string, typ: real, price: real, size: string)

  /** SQL `LIKE` without escapes: `%` is any run, `_` any character. */
  predicate Like(p: string, s: string)
    decreases |p|
  {
    if p == "" then s == ""
    else if p[0] == '%' then exists k :: 0 <= k <= |s| && Like(p[1..], s[k..])
    else s != "" && (p[0] == '_' || p[0] == s[0]) && Like(p[1..], s[1..])
  }

  predicate InQuotes(w: string) {
    |w| >= 2 && w[0] == '\'' && w[|w| - 1] == '\''
  }

  function Inside(w: string): string
    requires InQuotes(w)
  {
    w[1..|w| - 1]
  }

  // ------------------------------------------------------------------ queries

  /** The words of a query in front of its conditions. */
  const HEAD: seq<string> :=
    ["select", "god_id,god_name,godt_name,god_price,god_size", "from", "goods", "inner", "join", "goods_type", "on",
     "god_type=godt_id", "where", "1=1"]

  /** A row meets the conditions that the words spell, numbers being read by `num`. */
  predicate CondsHold(ws: seq<string>, row: Row, num: string -> real)
    decreases |ws|
  {
    if ws == [] then true
    else if |ws| < 2 || ws[0] != "and" then false
    else if "god_id=" <= ws[1] then row.id == num(ws[1][7..]) && CondsHold(ws[2..], row, num)
    else if "god_type=" <= ws[1] then row.typ == num(ws[1][9..]) && CondsHold(ws[2..], row, num)
    else if |ws| < 4 then false
    else if ws[1] == "god_name" && ws[2] == "like" && InQuotes(ws[3]) then
      Like(Inside(ws[3]), row.name) && CondsHold(ws[4..], row, num)
    else if ws[1] == "god_size" && ws[2] == "=" && InQuotes(ws[3]) then
      row.size == Inside(ws[3]) && ws[4..] == [";"]
    else if ws[1] != "god_price" then false
    else if ws[2] == ">=" then row.price >= num(ws[3]) && CondsHold(ws[4..], row, num)
    else if ws[2] == "<=" then row.price <= num(ws[3]) && CondsHold(ws[4..], row, num)
    else if ws[2] == "between" && |ws| >= 6 && ws[4] == "and" then
      num(ws[3]) <= row.price <= num(ws[5]) && CondsHold(ws[6..], row, num)
    else false
  }

  /** The query selects the row. */
  predicate Selects(sql: string, row: Row, num: string -> real) {
    var ws := Words(sql);
    |ws| >= 11 && ws[..11] == HEAD && CondsHold(ws[11..], row, num)
  }

  // --------------------------------------------------------- cells of a statement

  datatype Cell = Cell(column: string, value: string)

  /** The columns that hold quoted text; the others hold numbers. */
  predicate TextColumn(column: string) {
    column == "god_name" || column == "god_size"
  }

  function SplitCommas(t: string): seq<string>
    decreases |t|
  {
    var i := IndexOf(t, ',');
    if i == |t| then [t] else [t[..i]] + SplitCommas(t[i + 1..])
  }

  /** The first position of a quote that a comma follows, or the length. */
  function TextEnd(t: string): (k: nat)
    ensures k <= |t| && (k < |t| ==> k + 1 < |t| && t[k] == '\'' && t[k + 1] == ',')
    ensures forall j :: 0 <= j < k && j + 1 < |t| ==> !(t[j] == '\'' && t[j + 1] == ',')
  {
    if t == "" then 0
    else if |t| >= 2 && t[0] == '\'' && t[1] == ',' then 0
    else
      var k := TextEnd(t[1..]);
      1 + k
  }

  /** Values for the given columns, from left to right: a text goes up to the first quote that a comma
      follows, a number up to the first comma, the last value to the end. */
  function ReadValues(columns: seq<string>, t: string): seq<Cell>
    decreases |columns|
  {
    if columns == [] then []
    else
      var c := columns[0];
      if |columns| == 1 then
        if !TextColumn(c) then [Cell(c, t)] else if InQuotes(t) then [Cell(c, Inside(t))] else []
      else if !TextColumn(c) then
        var i := IndexOf(t, ',');
        if i == |t| then [] else [Cell(c, t[..i])] + ReadValues(columns[1..], t[i + 1..])
      else if t == "" || t[0] != '\'' then []
      else
        var i := TextEnd(t[1..]);
        if i == |t[1..]| then [] else [Cell(c, t[1..][..i])] + ReadValues(columns[1..], t[1..][i + 2..])
  }

  /** What `insert into goods(columns) value(values);` stores: the k-th value in the k-th column. */
  function InsertedCells(sql: string): seq<Cell> {
    var a := IndexOf(sql, '(');
    if a == |sql| || sql[..a] != "insert into goods" then []
    else
      var t := sql[a + 1..];
      var b := IndexOf(t, ')');
      var v := t[b..];
      if |v| < 10 || v[..8] != ") value(" || v[|v| - 2..] != ");" then []
      else ReadValues(SplitCommas(t[..b]), v[8..|v| - 2])
  }

  /** `column=value`, quotes around a text being taken off. */
  function Assignment(w: string): Cell {
    var i := IndexOf(w, '=');
    if i == |w| then Cell(w, "")
    else
      var v := w[i + 1..];
      Cell(w[..i], if TextColumn(w[..i]) && InQuotes(v) then Inside(v) else v)
  }

  function Assignments(ws: seq<string>): seq<Cell>
    decreases |ws|
  {
    if ws == [] then []
    else if |ws| >= 2 && ws[1] == "," then [Assignment(ws[0])] + Assignments(ws[2..])
    else [Assignment(ws[0])]
  }

  /** What `update goods set column=value , ... where ...` writes ... */
  function UpdatedCells(sql: string): seq<Cell> {
    var ws := Words(sql);
    if |ws| >= 3 && ws[..3] == ["update", "goods", "set"] then Assignments(ws[3..]) else []
  }

  /** ... and the rows it writes them to: `where column=value;` at the end. */
  function SelectedBy(sql: string): seq<Cell> {
    var ws := Words(sql);
    if |ws| >= 2 && ws[|ws| - 2] == "where" && ws[|ws| - 1] != "" && ws[|ws| - 1][|ws[|ws| - 1]| - 1] == ';'
    then [Assignment(ws[|ws| - 1][..|ws[|ws| - 1]| - 1])]
    else []
  }
}
