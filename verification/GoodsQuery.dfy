/** The goods programs: inserting and changing a row from a posted form, and turning the search form
    into a WHERE clause. */
module GoodsQuery {
  import opened CText
  import opened RequestLine
  import opened Forms
  import opened SqlReader

  /** The size of every field buffer of the decoders. */
  const FIELD_SIZE: nat := 40

  /** `sscanf` converts `n` values and each fits its buffer with its NUL. */
  ghost predicate Scannable(form: string, n: nat) {
    var vs := ScanValues(Spaced(form), n);
    |vs| == n && forall k :: 0 <= k < n ==> |vs[k]| < FIELD_SIZE
  }

  /** In-place decoding of a form with `n` fields. */
  method DecodeFields(data: array<char>, n: nat) returns (fields: seq<string>)
    requires NUL in data[..] && Scannable(CStr(data[..]), n)
    modifies data
    ensures |fields| == n && fields == ScanValues(Spaced(CStr(old(data[..]))), n)
  {
    ReplaceSeparators(data);
    fields := ScanValues(CStr(data[..]), n);
  }

  // ------------------------------------------------------------ insert and update

  datatype Goods = Goods(name: string, typ: string, price: string, size: string)

  const GOODS_COLUMNS := "god_name" + "," + ("god_type" + "," + ("god_price" + "," + "god_size"))

  function InsertText(g: Goods): string {
    "insert into goods(" + GOODS_COLUMNS + ") value('" + g.name + "'," + g.typ + "," + g.price + ",'" + g.size + "');"
  }

  function UpdateText(id: string, g: Goods): string {
    "update goods set god_name='" + g.name + "' , god_type=" + g.typ + " , god_price=" + g.price
    + " , god_size='" + g.size + "' where god_id=" + id + ";"
  }

  // ------------------------------------------------ what a statement determines

  /** Nowhere in `s` is `a` followed by `b`. */
  predicate Free(s: string, a: char, b: char) {
    forall i :: 0 <= i < |s| - 1 ==> !(s[i] == a && s[i + 1] == b)
  }

  /** The text between the fixed ends of an insert statement, and where its three separators lie. */
  function Middle(g: Goods): string {
    g.name + "'," + g.typ + "," + g.price + ",'" + g.size
  }

  function NameEnd(g: Goods): nat { |g.name| }
  function TypeEnd(g: Goods): nat { |g.name| + 2 + |g.typ| }
  function PriceEnd(g: Goods): nat { |g.name| + 2 + |g.typ| + 1 + |g.price| }

  lemma MiddleParts(g: Goods)
    ensures var t := Middle(g);
            && |t| == PriceEnd(g) + 2 + |g.size|
            && t[..NameEnd(g)] == g.name && t[NameEnd(g)] == '\'' && t[NameEnd(g) + 1] == ','
            && t[NameEnd(g) + 2..TypeEnd(g)] == g.typ && t[TypeEnd(g)] == ','
            && t[TypeEnd(g) + 1..PriceEnd(g)] == g.price && t[PriceEnd(g)] == ',' && t[PriceEnd(g) + 1] == '\''
            && t[PriceEnd(g) + 2..] == g.size
  {
  }

  /** The row's own separators are the first "'," and the last ",'", and there is no comma between
      them but those of the statement. */
  predicate Unambiguous(g: Goods) {
    Free(g.name, '\'', ',') && ',' !in g.typ && ',' !in g.price && Free(g.size, ',', '\'')
  }

  lemma SameEnds(g: Goods, h: Goods)
    ensures InsertText(g) == InsertText(h) <==> Middle(g) == Middle(h)
  {
    var a, z := "insert into goods(" + GOODS_COLUMNS + ") value('", "');";
    assert InsertText(g) == a + Middle(g) + z;
    assert InsertText(h) == a + Middle(h) + z;
    if InsertText(g) == InsertText(h) {
      assert Middle(g) == InsertText(g)[|a|..|InsertText(g)| - |z|];
      assert Middle(h) == InsertText(h)[|a|..|InsertText(h)| - |z|];
    }
  }

  lemma NotIn(t: string, a: nat, b: nat, c: char)
    requires a <= b <= |t| && c !in t[a..b]
    ensures forall k :: a <= k < b ==> t[k] != c
  {
    assert forall k :: a <= k < b ==> t[k] == t[a..b][k - a];
  }

  lemma FreeSlice(t: string, a: nat, b: nat, c: char, d: char)
    requires a <= b <= |t| && Free(t[a..b], c, d)
    ensures forall k :: a <= k < b - 1 && t[k] == c ==> t[k + 1] != d
  {
    forall k | a <= k < b - 1 && t[k] == c ensures t[k + 1] != d {
      assert t[k] == t[a..b][k - a] && t[k + 1] == t[a..b][k - a + 1];
    }
  }

  lemma SameSeparators(g: Goods, h: Goods)
    requires Unambiguous(g) && Middle(g) == Middle(h)
    ensures NameEnd(h) == NameEnd(g) && TypeEnd(h) == TypeEnd(g) && PriceEnd(h) == PriceEnd(g)
  {
    var t := Middle(g);
    MiddleParts(g);
    MiddleParts(h);
    FreeSlice(t, 0, NameEnd(g), '\'', ',');
    NotIn(t, NameEnd(g) + 2, TypeEnd(g), ',');
    NotIn(t, TypeEnd(g) + 1, PriceEnd(g), ',');
    FreeSlice(t, PriceEnd(g) + 2, |t|, ',', '\'');
  }

  lemma UnambiguousDetermines(g: Goods, h: Goods)
    requires Unambiguous(g) && InsertText(g) == InsertText(h)
    ensures g == h
  {
    SameEnds(g, h);
    SameSeparators(g, h);
    MiddleParts(g);
    MiddleParts(h);
  }

  /** A separator inside a field can be taken for the statement's own. */
  lemma NameSplits(g: Goods, i: nat)
    requires i < |g.name| - 1 && g.name[i] == '\'' && g.name[i + 1] == ','
    ensures Middle(g.(name := g.name[..i], typ := g.name[i + 2..] + "'," + g.typ)) == Middle(g)
  {
    assert g.name == g.name[..i] + "'," + g.name[i + 2..];
  }

  lemma TypeSplits(g: Goods, i: nat)
    requires i < |g.typ| && g.typ[i] == ','
    ensures Middle(g.(typ := g.typ[..i], price := g.typ[i + 1..] + "," + g.price)) == Middle(g)
  {
    assert g.typ == g.typ[..i] + "," + g.typ[i + 1..];
  }

  lemma PriceSplits(g: Goods, i: nat)
    requires i < |g.price| && g.price[i] == ','
    ensures Middle(g.(typ := g.typ + "," + g.price[..i], price := g.price[i + 1..])) == Middle(g)
  {
    assert g.price == g.price[..i] + "," + g.price[i + 1..];
  }

  lemma SizeSplits(g: Goods, i: nat)
    requires i < |g.size| - 1 && g.size[i] == ',' && g.size[i + 1] == '\''
    ensures Middle(g.(price := g.price + ",'" + g.size[..i], size := g.size[i + 2..])) == Middle(g)
  {
    assert g.size == g.size[..i] + ",'" + g.size[i + 2..];
  }

  /** Another row with the same statement, for a row whose fields contain a separator. */
  lemma AnotherRow(g: Goods) returns (h: Goods)
    requires !Unambiguous(g)
    ensures h != g && InsertText(h) == InsertText(g)
  {
    if i :| 0 <= i < |g.name| - 1 && g.name[i] == '\'' && g.name[i + 1] == ',' {
      NameSplits(g, i);
      h := g.(name := g.name[..i], typ := g.name[i + 2..] + "'," + g.typ);
    } else if i :| 0 <= i < |g.typ| && g.typ[i] == ',' {
      TypeSplits(g, i);
      h := g.(typ := g.typ[..i], price := g.typ[i + 1..] + "," + g.price);
    } else if i :| 0 <= i < |g.price| && g.price[i] == ',' {
      PriceSplits(g, i);
      h := g.(typ := g.typ + "," + g.price[..i], price := g.price[i + 1..]);
    } else {
      var i :| 0 <= i < |g.size| - 1 && g.size[i] == ',' && g.size[i + 1] == '\'';
      SizeSplits(g, i);
      h := g.(price := g.price + ",'" + g.size[..i], size := g.size[i + 2..]);
    }
    SameEnds(g, h);
  }

  /** An insert statement determines its row if and only if no field contains a separator that could
      be taken for one of the statement's. */
  lemma InsertDetermines(g: Goods)
    ensures (forall h: Goods :: InsertText(h) == InsertText(g) ==> h == g) <==> Unambiguous(g)
  {
    if Unambiguous(g) {
      forall h: Goods | InsertText(h) == InsertText(g) ensures h == g {
        UnambiguousDetermines(g, h);
      }
    } else {
      var h := AnotherRow(g);
    }
  }

  /** Two rows that a form can carry and that print the same statement. */
  lemma TwoRowsOneStatement()
    ensures var g, h := Goods("a", "1,2", "3", "b"), Goods("a", "1", "2,3", "b");
            g != h && CleanGoods(g) && CleanGoods(h) && InsertText(g) == InsertText(h)
  {
    var g, h := Goods("a", "1,2", "3", "b"), Goods("a", "1", "2,3", "b");
    assert Middle(g) == "a',1,2,3,'b" == Middle(h);
    SameEnds(g, h);
    assert g.typ != h.typ;
  }

  predicate WordGoods(g: Goods) {
    NoSpace(g.name) && NoSpace(g.typ) && NoSpace(g.price) && NoSpace(g.size)
  }

  lemma {:induction false} UntilSpace(a: string, x: string, b: string, y: string)
    requires NoSpace(a) && NoSpace(b) && x != "" && y != "" && IsSpace(x[0]) && IsSpace(y[0])
    requires a + x == b + y
    ensures a == b && x == y
    decreases |a|
  {
    assert (a + x)[0] == (b + y)[0];
    if a != "" && b != "" {
      assert a[1..] + x == (a + x)[1..] == (b + y)[1..] == b[1..] + y;
      UntilSpace(a[1..], x, b[1..], y);
      assert a == [a[0]] + a[1..] && b == [b[0]] + b[1..];
    } else {
      assert a == "" ==> a + x == x;
      assert b == "" ==> b + y == y;
    }
  }

  lemma SameFront(p: string, a: string, b: string)
    requires p + a == p + b
    ensures a == b
  {
    assert a == (p + a)[|p|..];
    assert b == (p + b)[|p|..];
  }

  /** A word between quotes that a fixed text follows. */
  lemma QuotedField(a: string, s: string, x: string, b: string, y: string)
    requires NoSpace(a) && NoSpace(b) && s != "" && IsSpace(s[0])
    requires a + ("'" + s + x) == b + ("'" + s + y)
    ensures a == b && x == y
  {
    assert a + ("'" + s + x) == (a + "'") + (s + x);
    assert b + ("'" + s + y) == (b + "'") + (s + y);
    UntilSpace(a + "'", s + x, b + "'", s + y);
    assert a == (a + "'")[..|a|] && b == (b + "'")[..|b|];
    SameFront(s, x, y);
  }

  lemma PlainField(a: string, s: string, x: string, b: string, y: string)
    requires NoSpace(a) && NoSpace(b) && s != "" && IsSpace(s[0])
    requires a + (s + x) == b + (s + y)
    ensures a == b && x == y
  {
    UntilSpace(a, s + x, b, s + y);
    SameFront(s, x, y);
  }

  // The text of an update statement from each of its fields on.

  function FromId(id: string): string { id + ";" }
  function FromSize(id: string, g: Goods): string { g.size + ("'" + " where god_id=" + FromId(id)) }
  function FromPrice(id: string, g: Goods): string { g.price + (" , god_size='" + FromSize(id, g)) }
  function FromType(id: string, g: Goods): string { g.typ + (" , god_price=" + FromPrice(id, g)) }
  function FromName(id: string, g: Goods): string { g.name + ("'" + " , god_type=" + FromType(id, g)) }

  lemma UpdateFields(id: string, g: Goods)
    ensures UpdateText(id, g) == "update goods set god_name='" + FromName(id, g)
  {
  }

  /** An update statement determines the row it selects and the new contents, for all fields without
      white space. */
  lemma UpdateDetermines(id: string, g: Goods, id': string, h: Goods)
    requires WordGoods(g) && WordGoods(h) && UpdateText(id, g) == UpdateText(id', h)
    ensures id == id' && g == h
  {
    UpdateFields(id, g);
    UpdateFields(id', h);
    SameFront("update goods set god_name='", FromName(id, g), FromName(id', h));
    QuotedField(g.name, " , god_type=", FromType(id, g), h.name, FromType(id', h));
    PlainField(g.typ, " , god_price=", FromPrice(id, g), h.typ, FromPrice(id', h));
    PlainField(g.price, " , god_size='", FromSize(id, g), h.price, FromSize(id', h));
    QuotedField(g.size, " where god_id=", FromId(id), h.size, FromId(id'));
    assert id == FromId(id)[..|FromId(id)| - 1];
    assert id' == FromId(id')[..|FromId(id')| - 1];
  }

  // ------------------------------------------------- what a reader of SQL finds

  /** The row, column by column. */
  function Cells(g: Goods): seq<Cell> {
    [Cell("god_name", g.name), Cell("god_type", g.typ), Cell("god_price", g.price), Cell("god_size", g.size)]
  }

  lemma SplitOne(a: string, rest: string)
    requires ',' !in a
    ensures SplitCommas(a + "," + rest) == [a] + SplitCommas(rest)
    ensures SplitCommas(a) == [a]
  {
    var t := a + "," + rest;
    IndexIs(t, ',', |a|);
    assert t[..|a|] == a && t[|a| + 1..] == rest;
    IndexIs(a, ',', |a|);
  }

  lemma SplitFour(a: string, b: string, c: string, d: string)
    requires ',' !in a && ',' !in b && ',' !in c && ',' !in d
    ensures SplitCommas(a + "," + (b + "," + (c + "," + d))) == [a, b, c, d]
  {
    SplitOne(a, b + "," + (c + "," + d));
    SplitOne(b, c + "," + d);
    SplitOne(c, d);
    SplitOne(d, "");
    assert [a] + ([b] + ([c] + [d])) == [a, b, c, d];
  }

  lemma ColumnList()
    ensures SplitCommas(GOODS_COLUMNS) == ["god_name", "god_type", "god_price", "god_size"]
  {
    SplitFour("god_name", "god_type", "god_price", "god_size");
  }

  lemma NoBracket()
    ensures ')' !in GOODS_COLUMNS
  {
    assert ')' !in "god_name" && ')' !in "god_type" && ')' !in "god_price" && ')' !in "god_size" && ')' !in ",";
  }

  lemma FirstAfter(a: string, c: char, b: string)
    requires c !in a
    ensures IndexOf(a + ([c] + b), c) == |a| && (a + ([c] + b))[..|a|] == a && (a + ([c] + b))[|a| + 1..] == b
  {
    var t := a + ([c] + b);
    assert forall k :: 0 <= k < |a| ==> t[k] == a[k] != c;
    IndexIs(t, c, |a|);
  }

  lemma ValueFrame(values: string)
    ensures var v := ") value(" + values + ");";
            |v| >= 10 && v[..8] == ") value(" && v[|v| - 2..] == ");" && v[8..|v| - 2] == values
  {
  }

  /** The frame of an insert statement around any column list and values without brackets in the former. */
  lemma InsertFrame(columns: string, values: string)
    requires ')' !in columns
    ensures InsertedCells("insert into goods" + "(" + columns + ") value(" + values + ");")
            == ReadValues(SplitCommas(columns), values)
  {
    var v := ") value(" + values + ");";
    FrameGroups("insert into goods", columns, values, v);
    FirstAfter("insert into goods", '(', columns + v);
    BracketAfter(columns, v);
    ValueFrame(values);
  }

  lemma FrameGroups(start: string, columns: string, values: string, v: string)
    requires v == ") value(" + values + ");"
    ensures start + "(" + columns + ") value(" + values + ");" == start + (['('] + (columns + v))
  {
  }

  lemma BracketAfter(columns: string, v: string)
    requires ')' !in columns && v != "" && v[0] == ')'
    ensures IndexOf(columns + v, ')') == |columns|
    ensures (columns + v)[..|columns|] == columns && (columns + v)[|columns|..] == v
  {
    var t := columns + v;
    assert t[|columns|] == ')';
    assert forall k :: 0 <= k < |columns| ==> t[k] == columns[k];
    IndexIs(t, ')', |columns|);
  }

  lemma InsertPieces(g: Goods)
    ensures InsertText(g) == "insert into goods" + "(" + GOODS_COLUMNS + ") value(" + ("'" + Middle(g) + "'") + ");"
  {
    InsertGroups(GOODS_COLUMNS, g);
  }

  lemma InsertGroups(c: string, g: Goods)
    ensures "insert into goods(" + c + ") value('" + g.name + "'," + g.typ + "," + g.price + ",'" + g.size + "');"
            == "insert into goods" + "(" + c + ") value(" + ("'" + Middle(g) + "'") + ");"
  {
    assert "insert into goods(" == "insert into goods" + "(";
    assert ") value('" == ") value(" + "'" && "');" == "'" + ");";
  }

  lemma TextEndIs(v: string, rest: string)
    requires Free(v, '\'', ',')
    ensures TextEnd(v + "'," + rest) == |v|
  {
    var t := v + "'," + rest;
    assert t[|v|] == '\'' && t[|v| + 1] == ',';
    assert forall j :: 0 <= j < |v| ==> t[j] == v[j];
    assert forall j :: 0 <= j < |v| - 1 ==> !(t[j] == '\'' && t[j + 1] == ',');
  }

  lemma ColumnKinds()
    ensures TextColumn("god_name") && TextColumn("god_size") && !TextColumn("god_type") && !TextColumn("god_price")
  {
    assert "god_type"[4] == 't' && "god_price"[4] == 'p' && "god_name"[4] == 'n' && "god_size"[4] == 's';
  }

  lemma ReadLast(c: string, v: string)
    requires TextColumn(c)
    ensures ReadValues([c], "'" + v + "'") == [Cell(c, v)]
  {
    assert Inside("'" + v + "'") == v;
  }

  lemma ReadNumber(c: string, v: string, columns: seq<string>, more: string)
    requires !TextColumn(c) && ',' !in v && columns != []
    ensures ReadValues([c] + columns, v + "," + more) == [Cell(c, v)] + ReadValues(columns, more)
  {
    var t := v + "," + more;
    IndexIs(t, ',', |v|);
    assert t[..|v|] == v && t[|v| + 1..] == more && ([c] + columns)[1..] == columns;
  }

  lemma ReadText(c: string, v: string, columns: seq<string>, more: string)
    requires TextColumn(c) && Free(v, '\'', ',') && columns != []
    ensures ReadValues([c] + columns, "'" + (v + "'," + more)) == [Cell(c, v)] + ReadValues(columns, more)
  {
    var t := "'" + (v + "'," + more);
    assert t[1..] == v + "'," + more;
    TextEndIs(v, more);
    assert t[1..][..|v|] == v && t[1..][|v| + 2..] == more && ([c] + columns)[1..] == columns;
  }

  lemma MiddleGroups(g: Goods, last: string)
    requires last == "'" + g.size + "'"
    ensures "'" + Middle(g) + "'" == "'" + (g.name + "'," + (g.typ + "," + (g.price + "," + last)))
  {
  }

  lemma ReadThree(t: string, p: string, s: string, g: Goods)
    requires !TextColumn(t) && !TextColumn(p) && TextColumn(s) && ',' !in g.typ && ',' !in g.price
    ensures ReadValues([t, p, s], g.typ + "," + (g.price + "," + ("'" + g.size + "'")))
            == [Cell(t, g.typ), Cell(p, g.price), Cell(s, g.size)]
  {
    var last := "'" + g.size + "'";
    ReadLast(s, g.size);
    ReadNumber(p, g.price, [s], last);
    ReadNumber(t, g.typ, [p, s], g.price + "," + last);
    assert [p] + [s] == [p, s] && [t] + [p, s] == [t, p, s];
    assert [Cell(t, g.typ)] + ([Cell(p, g.price)] + [Cell(s, g.size)]) == [Cell(t, g.typ), Cell(p, g.price), Cell(s, g.size)];
  }

  lemma ReadFour(n: string, t: string, p: string, s: string, g: Goods)
    requires TextColumn(n) && !TextColumn(t) && !TextColumn(p) && TextColumn(s)
    requires Free(g.name, '\'', ',') && ',' !in g.typ && ',' !in g.price
    ensures ReadValues([n, t, p, s], "'" + Middle(g) + "'")
            == [Cell(n, g.name)] + [Cell(t, g.typ), Cell(p, g.price), Cell(s, g.size)]
  {
    var more := g.typ + "," + (g.price + "," + ("'" + g.size + "'"));
    ReadThree(t, p, s, g);
    ReadText(n, g.name, [t, p, s], more);
    MiddleGroups(g, "'" + g.size + "'");
    assert [n] + [t, p, s] == [n, t, p, s];
  }

  lemma ReadRow(g: Goods)
    requires Free(g.name, '\'', ',') && ',' !in g.typ && ',' !in g.price
    ensures ReadValues(["god_name", "god_type", "god_price", "god_size"], "'" + Middle(g) + "'") == Cells(g)
  {
    ColumnKinds();
    ReadFour("god_name", "god_type", "god_price", "god_size", g);
  }

  /** For a row that the statement determines, a reader finds each field in its column. */
  lemma InsertIsRead(g: Goods)
    requires Unambiguous(g)
    ensures InsertedCells(InsertText(g)) == Cells(g)
  {
    InsertPieces(g);
    NoBracket();
    InsertFrame(GOODS_COLUMNS, "'" + Middle(g) + "'");
    ColumnList();
    ReadRow(g);
  }

  /** The words of an update statement behind the first. */
  function UpdateWords(id: string, g: Goods): seq<string> {
    ["goods", "set", "god_name='" + g.name + "'"] + [",", "god_type=" + g.typ] + [",", "god_price=" + g.price]
    + [",", "god_size='" + g.size + "'"] + ["where", "god_id=" + id + ";"]
  }

  lemma NamePiece(name: string)
    ensures Spread(["goods", "set", "god_name='" + name + "'"]) == " goods set god_name='" + name + "'"
  {
    var w := "god_name='" + name + "'";
    SpreadTwo("set", w);
    SpreadMore("goods", ["set", w]);
    assert ["goods", "set", w] == ["goods"] + ["set", w];
    assert " goods set god_name='" == " " + "goods" + (" " + "set" + " god_name='");
  }

  lemma TypePiece(typ: string)
    ensures Spread([",", "god_type=" + typ]) == " , god_type=" + typ
  {
    SpreadTwo(",", "god_type=" + typ);
  }

  lemma PricePiece(price: string)
    ensures Spread([",", "god_price=" + price]) == " , god_price=" + price
  {
    SpreadTwo(",", "god_price=" + price);
  }

  lemma SizePiece(size: string)
    ensures Spread([",", "god_size='" + size + "'"]) == " , god_size='" + size + "'"
  {
    SpreadTwo(",", "god_size='" + size + "'");
  }

  lemma IdPiece(id: string)
    ensures Spread(["where", "god_id=" + id + ";"]) == " where god_id=" + id + ";"
  {
    SpreadTwo("where", "god_id=" + id + ";");
  }

  lemma FiveSpreads(a: seq<string>, b: seq<string>, c: seq<string>, d: seq<string>, e: seq<string>)
    ensures Spread(a + b + c + d + e) == Spread(a) + Spread(b) + Spread(c) + Spread(d) + Spread(e)
  {
    SpreadConcat(a + b + c + d, e);
    SpreadConcat(a + b + c, d);
    SpreadConcat(a + b, c);
    SpreadConcat(a, b);
  }

  lemma UpdatePieces(id: string, g: Goods)
    ensures UpdateText(id, g)
            == "update" + ((" goods set god_name='" + g.name + "'") + (" , god_type=" + g.typ) + (" , god_price=" + g.price)
                           + (" , god_size='" + g.size + "'") + (" where god_id=" + id + ";"))
  {
    assert "update goods set god_name='" == "update" + " goods set god_name='";
    assert "' , god_type=" == "'" + " , god_type=" && "' where god_id=" == "'" + " where god_id=";
    UpdateGroups("update", " goods set god_name='", g.name, "'", " , god_type=", g.typ, " , god_price=", g.price,
                 " , god_size='", g.size, " where god_id=", id, ";");
  }

  lemma UpdateGroups(u: string, q1: string, n: string, q: string, q2: string, t: string, q3: string, p: string,
                     q4: string, s: string, q5: string, i: string, e: string)
    ensures (u + q1) + n + (q + q2) + t + q3 + p + q4 + s + (q + q5) + i + e
            == u + ((q1 + n + q) + (q2 + t) + (q3 + p) + (q4 + s + q) + (q5 + i + e))
  {
    assert (u + q1) + n + (q + q2) + t == u + ((q1 + n + q) + (q2 + t));
    assert (u + ((q1 + n + q) + (q2 + t))) + q3 + p == u + ((q1 + n + q) + (q2 + t) + (q3 + p));
  }

  lemma UpdateIsSpread(id: string, g: Goods)
    ensures UpdateText(id, g) == "update" + Spread(UpdateWords(id, g))
  {
    NamePiece(g.name);
    TypePiece(g.typ);
    PricePiece(g.price);
    SizePiece(g.size);
    IdPiece(id);
    FiveSpreads(["goods", "set", "god_name='" + g.name + "'"], [",", "god_type=" + g.typ], [",", "god_price=" + g.price],
                [",", "god_size='" + g.size + "'"], ["where", "god_id=" + id + ";"]);
    UpdatePieces(id, g);
  }

  lemma UpdateWordsAreWords(id: string, g: Goods)
    requires WordGoods(g) && NoSpace(id)
    ensures forall k :: 0 <= k < |UpdateWords(id, g)| ==> UpdateWords(id, g)[k] != "" && NoSpace(UpdateWords(id, g)[k])
  {
    assert NoSpace("god_name='" + g.name + "'") && NoSpace("god_type=" + g.typ) && NoSpace("god_price=" + g.price);
    assert NoSpace("god_size='" + g.size + "'") && NoSpace("god_id=" + id + ";");
    assert NoSpace("goods") && NoSpace("set") && NoSpace("where") && NoSpace(",");
  }

  lemma WordsOfUpdate(id: string, g: Goods)
    requires WordGoods(g) && NoSpace(id)
    ensures Words(UpdateText(id, g)) == ["update"] + UpdateWords(id, g)
  {
    var ws := UpdateWords(id, g);
    UpdateIsSpread(id, g);
    UpdateWordsAreWords(id, g);
    WordsOfSpread(ws, "");
    SpreadIsDetached(ws, "");
    WordsOf("update", Spread(ws) + "");
    assert Spread(ws) + "" == Spread(ws) && Words("") == [] && ws + [] == ws;
  }

  lemma AssignmentIs(column: string, v: string)
    requires '=' !in column
    ensures Assignment(column + "=" + v)
            == Cell(column, if TextColumn(column) && InQuotes(v) then Inside(v) else v)
  {
    var w := column + "=" + v;
    IndexIs(w, '=', |column|);
    assert w[..|column|] == column && w[|column| + 1..] == v;
  }

  lemma TextAssignment(column: string, v: string)
    requires '=' !in column && TextColumn(column)
    ensures Assignment(column + "='" + v + "'") == Cell(column, v)
  {
    AssignmentIs(column, "'" + v + "'");
    assert column + "='" + v + "'" == column + "=" + ("'" + v + "'");
    assert Inside("'" + v + "'") == v;
  }

  lemma AssignmentMore(a: string, ws: seq<string>)
    ensures Assignments([a, ","] + ws) == [Assignment(a)] + Assignments(ws)
  {
    assert ([a, ","] + ws)[2..] == ws;
  }

  lemma FourAssignments(a: string, b: string, c: string, d: string, rest: seq<string>)
    requires rest != [] && rest[0] != ","
    ensures Assignments([a] + [",", b] + [",", c] + [",", d] + rest)
            == [Assignment(a), Assignment(b), Assignment(c), Assignment(d)]
  {
    var w4 := [d] + rest;
    var w3 := [c, ","] + w4;
    var w2 := [b, ","] + w3;
    AssignmentLast(d, rest);
    AssignmentMore(c, w4);
    AssignmentMore(b, w3);
    AssignmentMore(a, w2);
    ListGroups(a, b, c, d, rest);
    CellGroups(Assignment(a), Assignment(b), Assignment(c), Assignment(d));
  }

  lemma AssignmentLast(d: string, rest: seq<string>)
    requires rest != [] && rest[0] != ","
    ensures Assignments([d] + rest) == [Assignment(d)]
  {
    assert ([d] + rest)[1] == rest[0];
  }

  lemma ListGroups(a: string, b: string, c: string, d: string, rest: seq<string>)
    ensures [a] + [",", b] + [",", c] + [",", d] + rest == [a, ","] + ([b, ","] + ([c, ","] + ([d] + rest)))
  {
  }

  lemma CellGroups(a: Cell, b: Cell, c: Cell, d: Cell)
    ensures [a] + ([b] + ([c] + [d])) == [a, b, c, d]
  {
  }

  /** A reader finds the new contents, each in its column, and the key of the row. */
  lemma UpdateIsRead(id: string, g: Goods)
    requires WordGoods(g) && NoSpace(id)
    ensures UpdatedCells(UpdateText(id, g)) == Cells(g) && SelectedBy(UpdateText(id, g)) == [Cell("god_id", id)]
  {
    var ws := ["update"] + UpdateWords(id, g);
    WordsOfUpdate(id, g);
    assert ws[..3] == ["update", "goods", "set"];
    assert ws[3..] == ["god_name='" + g.name + "'"] + [",", "god_type=" + g.typ] + [",", "god_price=" + g.price]
                      + [",", "god_size='" + g.size + "'"] + ["where", "god_id=" + id + ";"];
    FourAssignments("god_name='" + g.name + "'", "god_type=" + g.typ, "god_price=" + g.price, "god_size='" + g.size + "'",
                    ["where", "god_id=" + id + ";"]);
    UpdateCells(g);
    KeyIs(ws, id);
  }

  lemma UpdateCells(g: Goods)
    ensures Assignment("god_name='" + g.name + "'") == Cell("god_name", g.name)
    ensures Assignment("god_type=" + g.typ) == Cell("god_type", g.typ)
    ensures Assignment("god_price=" + g.price) == Cell("god_price", g.price)
    ensures Assignment("god_size='" + g.size + "'") == Cell("god_size", g.size)
  {
    TextCells(g.name, g.size);
    NumberCells(g.typ, g.price);
  }

  lemma TextCells(name: string, size: string)
    ensures Assignment("god_name='" + name + "'") == Cell("god_name", name)
    ensures Assignment("god_size='" + size + "'") == Cell("god_size", size)
  {
    TextAssignment("god_name", name);
    TextAssignment("god_size", size);
    assert "god_name" + "='" == "god_name='" && "god_size" + "='" == "god_size='";
  }

  lemma NumberCells(typ: string, price: string)
    ensures Assignment("god_type=" + typ) == Cell("god_type", typ)
    ensures Assignment("god_price=" + price) == Cell("god_price", price)
  {
    ColumnKinds();
    AssignmentIs("god_type", typ);
    AssignmentIs("god_price", price);
    assert "god_type" + "=" == "god_type=" && "god_price" + "=" == "god_price=";
  }

  lemma KeyIs(ws: seq<string>, id: string)
    requires |ws| >= 2 && ws[|ws| - 2] == "where" && ws[|ws| - 1] == "god_id=" + id + ";"
    ensures var w := ws[|ws| - 1];
            w != "" && w[|w| - 1] == ';' && Assignment(w[..|w| - 1]) == Cell("god_id", id)
  {
    var w := ws[|ws| - 1];
    assert w[..|w| - 1] == "god_id" + "=" + id;
    AssignmentIs("god_id", id);
  }

  /** The statement inserts this row, each field in its column, and says so unambiguously exactly when the
      row allows it. */
  ghost predicate Inserts(sql: string, g: Goods) {
    && sql == InsertText(g)
    && (Unambiguous(g) ==> InsertedCells(sql) == Cells(g))
    && ((forall h: Goods :: InsertText(h) == sql ==> h == g) <==> Unambiguous(g))
  }

  lemma InsertsBecause(g: Goods)
    ensures Inserts(InsertText(g), g)
  {
    InsertDetermines(g);
    if Unambiguous(g) { InsertIsRead(g); }
  }

  /** The statement selects this row by its key and gives it these contents, each field in its column, and
      no other reading of it by words does. */
  ghost predicate Changes(sql: string, id: string, g: Goods) {
    && sql == UpdateText(id, g)
    && UpdatedCells(sql) == Cells(g) && SelectedBy(sql) == [Cell("god_id", id)]
    && forall id': string, h: Goods :: WordGoods(h) && UpdateText(id', h) == sql ==> id' == id && h == g
  }

  lemma ScannedWords(form: string, n: nat)
    ensures forall v :: v in ScanValues(form, n) ==> v != "" && NoSpace(v)
  {
    ScanTakesSecondWords(form, n);
  }

  lemma ChangesBecause(sql: string, id: string, g: Goods)
    requires sql == UpdateText(id, g) && WordGoods(g) && NoSpace(id)
    ensures Changes(sql, id, g)
  {
    UpdateIsRead(id, g);
    forall id': string, h: Goods | WordGoods(h) && UpdateText(id', h) == sql ensures id' == id && h == g {
      UpdateDetermines(id, g, id', h);
    }
  }

  /** `add_goods` up to the statement it executes. */
  method AddGoods(data: array<char>) returns (sql: string)
    requires NUL in data[..] && Scannable(CStr(data[..]), 4)
    modifies data
    ensures var v := ScanValues(Spaced(CStr(old(data[..]))), 4);
            |v| == 4 && Inserts(sql, Goods(v[0], v[1], v[2], v[3]))
  {
    var v := DecodeFields(data, 4);
    InsertsBecause(Goods(v[0], v[1], v[2], v[3]));
    sql := "insert into goods(" + GOODS_COLUMNS + ") value('";
    sql := sql + v[0];
    sql := sql + "',";
    sql := sql + v[1];
    sql := sql + ",";
    sql := sql + v[2];
    sql := sql + ",'";
    sql := sql + v[3];
    sql := sql + "');";
  }

  /** `change_god` up to the statement it executes. */
  method ChangeGoods(data: array<char>) returns (sql: string)
    requires NUL in data[..] && Scannable(CStr(data[..]), 5)
    modifies data
    ensures var v := ScanValues(Spaced(CStr(old(data[..]))), 5);
            |v| == 5 && Changes(sql, v[0], Goods(v[1], v[2], v[3], v[4]))
  {
    ghost var form := Spaced(CStr(data[..]));
    var v := DecodeFields(data, 5);
    ScannedWords(form, 5);
    sql := "update goods set god_name='";
    sql := sql + v[1];
    sql := sql + "' , god_type=";
    sql := sql + v[2];
    sql := sql + " , god_price=";
    sql := sql + v[3];
    sql := sql + " , god_size='";
    sql := sql + v[4];
    sql := sql + "' where god_id=";
    sql := sql + v[0];
    sql := sql + ";";
    ChangesBecause(sql, v[0], Goods(v[1], v[2], v[3], v[4]));
  }

  predicate CleanField(v: string) {
    Clean(v) && |v| <= 39
  }

  predicate CleanGoods(g: Goods) {
    CleanField(g.name) && CleanField(g.typ) && CleanField(g.price) && CleanField(g.size)
  }

  /** A form whose i-th key carries the i-th value. */
  function Fill(keys: seq<string>, values: seq<string>): (ps: seq<Pair>)
    requires |keys| == |values|
    ensures |ps| == |keys| && forall k :: 0 <= k < |ps| ==> ps[k] == Pair(keys[k], values[k])
  {
    seq(|keys|, k requires 0 <= k < |keys| => Pair(keys[k], values[k]))
  }

  /** Whatever the fields are called, a form filled in with clean values is scannable and gives them
      back in order. */
  lemma FilledForm(keys: seq<string>, values: seq<string>)
    requires |keys| == |values|
    requires forall k :: 0 <= k < |keys| ==> Clean(keys[k]) && CleanField(values[k])
    ensures var form := PrintForm(Fill(keys, values));
            && NUL !in form && Scannable(form, |values|)
            && ScanValues(Spaced(form), |values|) == values
  {
    var ps := Fill(keys, values);
    FilledValues(ps, |values|);
    FormHasNoNul(ps);
    assert Values(ps)[..|values|] == values;
  }

  // ------------------------------------------------------------------- the search

  datatype Filters = Filters(id: string, name: string, typ: string, low: string, high: string, size: string)

  datatype Cond =
    | IdIs(v: string)
    | NameLike(v: string)
    | TypeIs(v: string)
    | PriceBetween(low: string, high: string)
    | PriceFrom(low: string)
    | PriceTo(high: string)
    | SizeIs(v: string)

  const COLUMNS := "god_id,god_name,godt_name,god_price,god_size"
  const SELECT := "select " + COLUMNS + " from goods inner" + " join goods_type" + " on god_type=godt_id"

  /** The text of one condition. */
  function Render(c: Cond): string {
    match c
    case IdIs(v) => " and god_id=" + v
    case NameLike(v) => " and god_name like '%" + v + "%' "
    case TypeIs(v) => " and god_type=" + v
    case PriceBetween(l, h) => " and god_price between " + l + " and " + h
    case PriceFrom(l) => " and god_price >= " + l
    case PriceTo(h) => " and god_price <= " + h
    case SizeIs(v) => " and god_size = '" + v + "' ;"
  }

  function Join(texts: seq<string>): string {
    if texts == [] then "" else Join(texts[..|texts| - 1]) + texts[|texts| - 1]
  }

  function Texts(cs: seq<Cond>): seq<string> {
    seq(|cs|, k requires 0 <= k < |cs| => Render(cs[k]))
  }

  function RenderAll(cs: seq<Cond>): string {
    Join(Texts(cs))
  }

  lemma RenderOneMore(cs: seq<Cond>, c: Cond)
    ensures RenderAll(cs + [c]) == RenderAll(cs) + Render(c)
  {
    var ts := Texts(cs + [c]);
    assert ts[..|cs|] == Texts(cs);
    assert ts[|cs|] == Render(c);
  }

  /** What a condition says of a row, numbers being read by `num`. */
  predicate Holds(c: Cond, row: Row, num: string -> real) {
    match c
    case IdIs(v) => row.id == num(v)
    case NameLike(v) => Like("%" + v + "%", row.name)
    case TypeIs(v) => row.typ == num(v)
    case PriceBetween(l, h) => num(l) <= row.price <= num(h)
    case PriceFrom(l) => row.price >= num(l)
    case PriceTo(h) => row.price <= num(h)
    case SizeIs(v) => row.size == v
  }

  predicate Satisfies(row: Row, cs: seq<Cond>, num: string -> real) {
    forall k :: 0 <= k < |cs| ==> Holds(cs[k], row, num)
  }

  /** A filter left empty or at its form default does not restrict the search. */
  predicate Unset(v: string, default: string) {
    v == "" || v == default
  }

  /** Some stretch of the name matches the filter. */
  predicate NameMatches(v: string, name: string) {
    exists i, j :: 0 <= i <= j <= |name| && Like(v, name[i..j])
  }

  /** The meaning of the search form: six filters, each on its own, the price bounds independent. */
  predicate Passes(row: Row, f: Filters, num: string -> real) {
    && (Unset(f.id, "xx") || row.id == num(f.id))
    && (Unset(f.name, "xx") || NameMatches(f.name, row.name))
    && (Unset(f.typ, "-1") || row.typ == num(f.typ))
    && (Unset(f.low, "xx.xx") || num(f.low) <= row.price)
    && (Unset(f.high, "xx.xx") || row.price <= num(f.high))
    && (Unset(f.size, "any") || row.size == f.size)
  }

  /** Some front of the text matches. */
  predicate FrontMatches(p: string, s: string) {
    exists j :: 0 <= j <= |s| && Like(p, s[..j])
  }

  lemma FrontOfPercent(p: string, s: string)
    requires p != "" && p[0] == '%'
    ensures FrontMatches(p, s) <==> exists k :: 0 <= k <= |s| && FrontMatches(p[1..], s[k..])
  {
    if j :| 0 <= j <= |s| && Like(p, s[..j]) {
      var k :| 0 <= k <= |s[..j]| && Like(p[1..], s[..j][k..]);
      assert s[k..][..j - k] == s[..j][k..];
      assert FrontMatches(p[1..], s[k..]);
    }
    if k :| 0 <= k <= |s| && FrontMatches(p[1..], s[k..]) {
      var j :| 0 <= j <= |s[k..]| && Like(p[1..], s[k..][..j]);
      assert s[..k + j][k..] == s[k..][..j];
      assert Like(p, s[..k + j]);
    }
  }

  lemma FrontOfChar(p: string, s: string)
    requires p != "" && p[0] != '%'
    ensures FrontMatches(p, s) <==> s != "" && (p[0] == '_' || p[0] == s[0]) && FrontMatches(p[1..], s[1..])
  {
    if j :| 0 <= j <= |s| && Like(p, s[..j]) {
      assert s[..j] != "" && s[..j][0] == s[0];
      assert s[1..][..j - 1] == s[..j][1..];
    }
    if s != "" && (p[0] == '_' || p[0] == s[0]) && FrontMatches(p[1..], s[1..]) {
      var j :| 0 <= j <= |s[1..]| && Like(p[1..], s[1..][..j]);
      assert s[..1 + j][1..] == s[1..][..j] && s[..1 + j][0] == s[0];
      assert Like(p, s[..1 + j]);
    }
  }

  lemma LikePercent(s: string)
    ensures Like("%", s) && FrontMatches("", s)
  {
    assert "%"[1..] == "" && s[|s|..] == "" && s[..0] == "";
    assert Like("%"[1..], s[|s|..]);
    assert Like("", s[..0]);
  }

  lemma {:induction false} LikeSuffix(p: string, s: string)
    ensures Like(p + "%", s) <==> FrontMatches(p, s)
    decreases |p|
  {
    var q := p + "%";
    if p == "" {
      assert q == "%";
      LikePercent(s);
    } else {
      assert q[1..] == p[1..] + "%" && q[0] == p[0];
      if p[0] == '%' {
        FrontOfPercent(p, s);
        forall k | 0 <= k <= |s| ensures Like(q[1..], s[k..]) <==> FrontMatches(p[1..], s[k..]) {
          LikeSuffix(p[1..], s[k..]);
        }
      } else {
        FrontOfChar(p, s);
        if s != "" { LikeSuffix(p[1..], s[1..]); }
      }
    }
  }

  /** `'%v%'` matches exactly the names some stretch of which matches `v`. */
  lemma LikeInfix(v: string, name: string)
    ensures Like("%" + v + "%", name) <==> NameMatches(v, name)
  {
    var p := "%" + v + "%";
    assert p[1..] == v + "%";
    if Like(p, name) {
      var k :| 0 <= k <= |name| && Like(p[1..], name[k..]);
      LikeSuffix(v, name[k..]);
      var j :| 0 <= j <= |name[k..]| && Like(v, name[k..][..j]);
      assert name[k..k + j] == name[k..][..j];
    }
    if NameMatches(v, name) {
      var i, j :| 0 <= i <= j <= |name| && Like(v, name[i..j]);
      assert name[i..][..j - i] == name[i..j];
      LikeSuffix(v, name[i..]);
      assert Like(p[1..], name[i..]);
    }
  }

  lemma {:induction false} LikePlain(v: string, s: string)
    requires '%' !in v && '_' !in v
    ensures Like(v, s) <==> v == s
    decreases |v|
  {
    if v != "" && s != "" {
      LikePlain(v[1..], s[1..]);
      assert v == [v[0]] + v[1..] && s == [s[0]] + s[1..];
    }
  }

  /** Without wildcards the name filter means: occurs in the name. */
  lemma PlainNameFilter(v: string, name: string)
    requires '%' !in v && '_' !in v
    ensures NameMatches(v, name) <==> Contains(name, v)
  {
    if NameMatches(v, name) {
      var i, j :| 0 <= i <= j <= |name| && Like(v, name[i..j]);
      LikePlain(v, name[i..j]);
      assert OccursAt(name, v, i);
    }
    if Contains(name, v) {
      var i :| 0 <= i <= |name| && OccursAt(name, v, i);
      LikePlain(v, name[i..i + |v|]);
    }
  }

  // The conditions each filter contributes, in the order the statement is built.

  function IdPart(f: Filters): seq<Cond> {
    if Unset(f.id, "xx") then [] else [IdIs(f.id)]
  }

  function NamePart(f: Filters): seq<Cond> {
    if Unset(f.name, "xx") then [] else [NameLike(f.name)]
  }

  function TypePart(f: Filters): seq<Cond> {
    if Unset(f.typ, "-1") then [] else [TypeIs(f.typ)]
  }

  function PricePart(f: Filters): seq<Cond> {
    match (Unset(f.low, "xx.xx"), Unset(f.high, "xx.xx"))
    case (false, false) => [PriceBetween(f.low, f.high)]
    case (false, true) => [PriceFrom(f.low)]
    case (true, false) => [PriceTo(f.high)]
    case (true, true) => []
  }

  function SizePart(f: Filters): seq<Cond> {
    if Unset(f.size, "any") then [] else [SizeIs(f.size)]
  }

  function Where(f: Filters): seq<Cond> {
    IdPart(f) + NamePart(f) + TypePart(f) + PricePart(f) + SizePart(f)
  }

  /** The statement with the given conditions. */
  function QueryText(cs: seq<Cond>): string {
    SELECT + " where 1=1 " + RenderAll(cs)
  }

  lemma SatisfiesBoth(row: Row, a: seq<Cond>, b: seq<Cond>, num: string -> real)
    ensures Satisfies(row, a + b, num) <==> Satisfies(row, a, num) && Satisfies(row, b, num)
  {
    var c := a + b;
    assert forall k :: 0 <= k < |a| ==> c[k] == a[k];
    assert forall k :: 0 <= k < |b| ==> b[k] == c[|a| + k];
  }

  /** The three-way price branch is the conjunction of two independent bounds. */
  lemma PriceMeaning(f: Filters, row: Row, num: string -> real)
    ensures Satisfies(row, PricePart(f), num) <==>
              && (Unset(f.low, "xx.xx") || num(f.low) <= row.price)
              && (Unset(f.high, "xx.xx") || row.price <= num(f.high))
  {
    var cs := PricePart(f);
    assert cs != [] ==> (Satisfies(row, cs, num) <==> Holds(cs[0], row, num));
  }

  lemma NameMeaning(f: Filters, row: Row, num: string -> real)
    ensures Satisfies(row, NamePart(f), num) <==> Unset(f.name, "xx") || NameMatches(f.name, row.name)
  {
    var cs := NamePart(f);
    assert cs != [] ==> (Satisfies(row, cs, num) <==> Holds(cs[0], row, num));
    LikeInfix(f.name, row.name);
  }

  /** A filter that contributes at most one condition. */
  lemma OneCondition(cs: seq<Cond>, row: Row, num: string -> real)
    requires |cs| <= 1
    ensures Satisfies(row, cs, num) <==> cs == [] || Holds(cs[0], row, num)
  {
  }

  /** A row satisfies the clause exactly when it passes every filter not left at its default. */
  lemma WhereMeaning(f: Filters, row: Row, num: string -> real)
    ensures Satisfies(row, Where(f), num) <==> Passes(row, f, num)
  {
    OneCondition(IdPart(f), row, num);
    NameMeaning(f, row, num);
    OneCondition(TypePart(f), row, num);
    PriceMeaning(f, row, num);
    OneCondition(SizePart(f), row, num);
    SatisfiesBoth(row, IdPart(f), NamePart(f), num);
    SatisfiesBoth(row, IdPart(f) + NamePart(f), TypePart(f), num);
    SatisfiesBoth(row, IdPart(f) + NamePart(f) + TypePart(f), PricePart(f), num);
    SatisfiesBoth(row, IdPart(f) + NamePart(f) + TypePart(f) + PricePart(f), SizePart(f), num);
  }

  // ------------------------------------------ what the text of the clause says

  /** A condition whose values are single words. */
  predicate WordCond(c: Cond) {
    match c
    case IdIs(v) => NoSpace(v)
    case NameLike(v) => NoSpace(v)
    case TypeIs(v) => NoSpace(v)
    case PriceBetween(l, h) => l != "" && NoSpace(l) && h != "" && NoSpace(h)
    case PriceFrom(l) => l != "" && NoSpace(l)
    case PriceTo(h) => h != "" && NoSpace(h)
    case SizeIs(v) => NoSpace(v)
  }

  predicate WordConds(cs: seq<Cond>) {
    forall k :: 0 <= k < |cs| ==> WordCond(cs[k])
  }

  /** The words of a condition's text. */
  function CondWords(c: Cond): seq<string> {
    match c
    case IdIs(v) => ["and", "god_id=" + v]
    case NameLike(v) => ["and", "god_name", "like", "'%" + v + "%'"]
    case TypeIs(v) => ["and", "god_type=" + v]
    case PriceBetween(l, h) => ["and", "god_price", "between", l, "and", h]
    case PriceFrom(l) => ["and", "god_price", ">=", l]
    case PriceTo(h) => ["and", "god_price", "<=", h]
    case SizeIs(v) => ["and", "god_size", "=", "'" + v + "'", ";"]
  }

  function Flatten(wss: seq<seq<string>>): seq<string> {
    if wss == [] then [] else wss[0] + Flatten(wss[1..])
  }

  function WordLists(cs: seq<Cond>): seq<seq<string>> {
    seq(|cs|, k requires 0 <= k < |cs| => CondWords(cs[k]))
  }

  function AllCondWords(cs: seq<Cond>): seq<string> {
    Flatten(WordLists(cs))
  }

  lemma AllCondWordsCons(cs: seq<Cond>)
    requires cs != []
    ensures AllCondWords(cs) == CondWords(cs[0]) + AllCondWords(cs[1..])
  {
    assert WordLists(cs)[1..] == WordLists(cs[1..]);
  }

  function Spread(ws: seq<string>): string {
    if ws == [] then "" else " " + ws[0] + Spread(ws[1..])
  }

  predicate Detached(rest: string) {
    rest == "" || IsSpace(rest[0])
  }

  predicate Adds(text: string, ws: seq<string>, rest: string) {
    Words(text + rest) == ws + Words(rest)
  }

  lemma AddsWord(w: string, text: string, ws: seq<string>, rest: string)
    requires w != "" && NoSpace(w) && Detached(text + rest) && Adds(text, ws, rest)
    ensures Adds(" " + w + text, [w] + ws, rest)
  {
    assert " " + w + text + rest == " " + (w + (text + rest));
    WordsBehindSpace(w + (text + rest));
    WordsOf(w, text + rest);
    assert [w] + ws + Words(rest) == [w] + (ws + Words(rest));
  }

  lemma SpreadIsDetached(ws: seq<string>, rest: string)
    requires Detached(rest)
    ensures Detached(Spread(ws) + rest)
  {
    assert Spread(ws) != "" ==> Spread(ws)[0] == ' ';
    assert Spread(ws) == "" ==> Spread(ws) + rest == rest;
  }

  /** Words written with one space in front of each. */
  lemma {:induction false} WordsOfSpread(ws: seq<string>, rest: string)
    requires forall k :: 0 <= k < |ws| ==> ws[k] != "" && NoSpace(ws[k])
    requires Detached(rest)
    ensures Adds(Spread(ws), ws, rest)
    decreases |ws|
  {
    if ws == [] {
      NoWords(rest);
    } else {
      WordsOfSpread(ws[1..], rest);
      SpreadIsDetached(ws[1..], rest);
      AddsWord(ws[0], Spread(ws[1..]), ws[1..], rest);
      assert ws == [ws[0]] + ws[1..];
    }
  }

  lemma NoWords(rest: string)
    ensures Adds("", [], rest)
  {
    assert "" + rest == rest;
    assert [] + Words(rest) == Words(rest);
  }

  lemma SpreadOne(a: string)
    ensures Spread([a]) == " " + a
  {
    assert [a][1..] == [];
    assert Spread([]) == "";
  }

  lemma SpreadMore(a: string, ws: seq<string>)
    ensures Spread([a] + ws) == " " + a + Spread(ws)
  {
    assert ([a] + ws)[1..] == ws;
  }

  lemma SpreadTwo(a: string, b: string)
    ensures Spread([a, b]) == " " + a + (" " + b)
  {
    SpreadOne(b);
    SpreadMore(a, [b]);
    assert [a, b] == [a] + [b];
  }

  lemma SpreadFour(a: string, b: string, c: string, d: string)
    ensures Spread([a, b, c, d]) == " " + a + (" " + b + (" " + c + (" " + d)))
  {
    SpreadTwo(c, d);
    SpreadMore(b, [c, d]);
    SpreadMore(a, [b, c, d]);
    assert [b, c, d] == [b] + [c, d];
    assert [a, b, c, d] == [a] + [b, c, d];
  }

  lemma IdText(v: string)
    ensures Render(IdIs(v)) == Spread(CondWords(IdIs(v)))
  {
    SpreadTwo("and", "god_id=" + v);
  }

  lemma NameText(v: string)
    ensures Render(NameLike(v)) == Spread(CondWords(NameLike(v))) + " "
  {
    var q := "'%" + v + "%'";
    LikeText(q);
    assert Render(NameLike(v)) == " and god_name like " + q + " ";
  }

  lemma LikeText(q: string)
    ensures Spread(["and", "god_name", "like", q]) == " and god_name like " + q
  {
    SpreadFour("and", "god_name", "like", q);
    assert " and god_name like " == " " + "and" + (" " + "god_name" + (" " + "like" + " "));
  }

  lemma TypeText(v: string)
    ensures Render(TypeIs(v)) == Spread(CondWords(TypeIs(v)))
  {
    SpreadTwo("and", "god_type=" + v);
  }

  lemma PriceBetweenText(l: string, h: string)
    ensures Render(PriceBetween(l, h)) == Spread(CondWords(PriceBetween(l, h)))
  {
    SixWords("and", "god_price", "between", l, "and", h);
    BetweenText(l, h);
  }

  lemma SixWords(a: string, b: string, c: string, d: string, e: string, f: string)
    ensures Spread([a, b, c, d, e, f])
            == " " + a + (" " + b + (" " + c + (" " + d + (" " + e + (" " + f)))))
  {
    SpreadFour(c, d, e, f);
    SpreadMore(b, [c, d, e, f]);
    SpreadMore(a, [b, c, d, e, f]);
    assert [b, c, d, e, f] == [b] + [c, d, e, f];
    assert [a, b, c, d, e, f] == [a] + [b, c, d, e, f];
  }

  lemma BetweenText(l: string, h: string)
    ensures " and god_price between " + l + " and " + h
            == " " + "and" + (" " + "god_price" + (" " + "between" + (" " + l + (" " + "and" + (" " + h)))))
  {
    assert " and god_price between " == " " + "and" + (" " + "god_price" + (" " + "between" + " "));
    assert " and " == " " + "and" + " ";
  }

  lemma PriceFromText(l: string)
    ensures Render(PriceFrom(l)) == Spread(CondWords(PriceFrom(l)))
  {
    SpreadFour("and", "god_price", ">=", l);
  }

  lemma PriceToText(h: string)
    ensures Render(PriceTo(h)) == Spread(CondWords(PriceTo(h)))
  {
    SpreadFour("and", "god_price", "<=", h);
  }

  lemma SizeText(v: string)
    ensures Render(SizeIs(v)) == Spread(CondWords(SizeIs(v)))
  {
    var q := "'" + v + "'";
    SpreadFour("god_size", "=", q, ";");
    SpreadMore("and", ["god_size", "=", q, ";"]);
    assert CondWords(SizeIs(v)) == ["and"] + ["god_size", "=", q, ";"];
  }

  /** A condition is rendered word by word; the name filter leaves a space behind it. */
  lemma RenderIsSpread(c: Cond)
    ensures Render(c) == Spread(CondWords(c)) + if c.NameLike? then " " else ""
  {
    match c
    case IdIs(v) => IdText(v);
    case NameLike(v) => NameText(v);
    case TypeIs(v) => TypeText(v);
    case PriceBetween(l, h) => PriceBetweenText(l, h);
    case PriceFrom(l) => PriceFromText(l);
    case PriceTo(h) => PriceToText(h);
    case SizeIs(v) => SizeText(v);
  }

  lemma WordsAreWords(c: Cond)
    requires WordCond(c)
    ensures forall k :: 0 <= k < |CondWords(c)| ==> CondWords(c)[k] != "" && NoSpace(CondWords(c)[k])
  {
    match c
    case IdIs(v) => assert NoSpace("god_id=" + v);
    case NameLike(v) => assert NoSpace("'%" + v + "%'");
    case TypeIs(v) => assert NoSpace("god_type=" + v);
    case SizeIs(v) => assert NoSpace("'" + v + "'");
    case _ =>
  }

  lemma SpreadThenSpace(ws: seq<string>, gap: string, rest: string)
    requires forall k :: 0 <= k < |ws| ==> ws[k] != "" && NoSpace(ws[k])
    requires (gap == "" || gap == " ") && (rest == "" || IsSpace(rest[0]))
    ensures Words(Spread(ws) + gap + rest) == ws + Words(rest)
  {
    assert Spread(ws) + gap + rest == Spread(ws) + (gap + rest);
    WordsOfSpread(ws, gap + rest);
    if gap == "" {
      assert gap + rest == rest;
    } else {
      WordsBehindSpace(rest);
    }
  }

  lemma RenderWords(c: Cond, rest: string)
    requires WordCond(c) && (rest == "" || IsSpace(rest[0]))
    ensures Words(Render(c) + rest) == CondWords(c) + Words(rest)
    ensures (Render(c) + rest)[0] == ' '
  {
    RenderIsSpread(c);
    WordsAreWords(c);
    SpreadThenSpace(CondWords(c), if c.NameLike? then " " else "", rest);
  }

  /** `text` contributes the words `ws`, whatever follows it. */
  ghost predicate Contributes(text: string, ws: seq<string>) {
    Detached(text) && forall rest: string :: Detached(rest) ==> Adds(text, ws, rest)
  }

  lemma RenderContributes(c: Cond)
    requires WordCond(c)
    ensures Contributes(Render(c), CondWords(c))
  {
    forall rest: string | Detached(rest) ensures Adds(Render(c), CondWords(c), rest) {
      RenderWords(c, rest);
    }
    RenderWords(c, "");
    assert Render(c) + "" == Render(c);
  }

  lemma AddsBoth(a: string, x: seq<string>, b: string, y: seq<string>, rest: string)
    requires Adds(a, x, b + rest) && Adds(b, y, rest)
    ensures Adds(a + b, x + y, rest)
  {
    assert a + b + rest == a + (b + rest);
    assert x + y + Words(rest) == x + (y + Words(rest));
  }

  lemma BothContribute(a: string, x: seq<string>, b: string, y: seq<string>)
    requires Contributes(a, x) && Contributes(b, y)
    ensures Contributes(a + b, x + y)
  {
    forall rest: string | Detached(rest) ensures Adds(a + b, x + y, rest) {
      assert Detached(b + rest);
      AddsBoth(a, x, b, y, rest);
    }
  }

  lemma {:induction false} JoinContributes(texts: seq<string>, wss: seq<seq<string>>)
    requires |texts| == |wss| && forall k :: 0 <= k < |texts| ==> Contributes(texts[k], wss[k])
    ensures Contributes(Join(texts), Flatten(wss))
    decreases |texts|
  {
    if texts == [] {
      NothingContributes();
    } else {
      var n := |texts| - 1;
      JoinContributes(texts[..n], wss[..n]);
      BothContribute(Join(texts[..n]), Flatten(wss[..n]), texts[n], wss[n]);
      FlattenLast(wss);
    }
  }

  lemma NothingContributes()
    ensures Contributes("", [])
  {
    forall rest: string | Detached(rest) ensures Adds("", [], rest) {
      NoWords(rest);
    }
  }

  lemma ContributedWords(text: string, ws: seq<string>)
    requires Contributes(text, ws)
    ensures Words(text) == ws
  {
    assert Adds(text, ws, "");
    assert text + "" == text;
    assert Words("") == [];
  }

  lemma TextWords(cs: seq<Cond>)
    requires WordConds(cs)
    ensures Words(RenderAll(cs)) == AllCondWords(cs)
  {
    forall k | 0 <= k < |cs| ensures Contributes(Texts(cs)[k], WordLists(cs)[k]) {
      RenderContributes(cs[k]);
    }
    JoinContributes(Texts(cs), WordLists(cs));
    ContributedWords(RenderAll(cs), AllCondWords(cs));
  }

  lemma FlattenLast(wss: seq<seq<string>>)
    requires wss != []
    ensures Flatten(wss) == Flatten(wss[..|wss| - 1]) + wss[|wss| - 1]
  {
    FlattenSnoc(wss[..|wss| - 1], wss[|wss| - 1]);
    assert wss == wss[..|wss| - 1] + [wss[|wss| - 1]];
  }

  lemma {:induction false} FlattenSnoc(wss: seq<seq<string>>, ws: seq<string>)
    ensures Flatten(wss + [ws]) == Flatten(wss) + ws
    decreases |wss|
  {
    if wss == [] {
      assert (wss + [ws])[1..] == [] && (wss + [ws])[0] == ws;
    } else {
      assert (wss + [ws])[1..] == wss[1..] + [ws];
      FlattenSnoc(wss[1..], ws);
    }
  }

  /** The second and third word tell the kind of a condition, and with it the number of its words. */
  lemma FirstCondition(c: Cond, d: Cond, x: seq<string>, y: seq<string>)
    requires CondWords(c) + x == CondWords(d) + y
    ensures c == d && x == y
  {
    var a, b := CondWords(c), CondWords(d);
    assert a[1] == (a + x)[1] == (b + y)[1] == b[1];
    SecondWord(c, d);
    if !(c.IdIs? || c.TypeIs?) {
      assert a[2] == (a + x)[2] == (b + y)[2] == b[2];
      assert a[3] == (a + x)[3] == (b + y)[3] == b[3];
    }
    if c.PriceBetween? {
      assert a[5] == (a + x)[5] == (b + y)[5] == b[5];
    }
    ThirdWord(c, d);
    assert x == (a + x)[|a|..] && y == (b + y)[|b|..];
  }

  function Kind(c: Cond): nat {
    match c
    case IdIs(_) => 0
    case NameLike(_) => 1
    case TypeIs(_) => 2
    case PriceBetween(_, _) => 3
    case PriceFrom(_) => 3
    case PriceTo(_) => 3
    case SizeIs(_) => 4
  }

  lemma SecondWord(c: Cond, d: Cond)
    requires CondWords(c)[1] == CondWords(d)[1]
    ensures Kind(c) == Kind(d)
    ensures c.IdIs? || c.TypeIs? ==> c == d
  {
    var a, b := CondWords(c)[1], CondWords(d)[1];
    assert a[4] == b[4];
    assert c.IdIs? || c.TypeIs? ==> a[4] == if c.IdIs? then 'i' else 't';
    assert c.IdIs? ==> a[7..] == c.v && b[7..] == d.v;
    assert c.TypeIs? ==> a[9..] == c.v && b[9..] == d.v;
  }

  lemma ThirdWord(c: Cond, d: Cond)
    requires Kind(c) == Kind(d) && (c.IdIs? || c.TypeIs? ==> c == d)
    requires !(c.IdIs? || c.TypeIs?) ==> CondWords(c)[2] == CondWords(d)[2] && CondWords(c)[3] == CondWords(d)[3]
    requires c.PriceBetween? && d.PriceBetween? ==> CondWords(c)[5] == CondWords(d)[5]
    ensures c == d
  {
    if c.NameLike? {
      assert CondWords(c)[3][2..|c.v| + 2] == c.v && CondWords(d)[3][2..|d.v| + 2] == d.v;
    } else if c.SizeIs? {
      assert CondWords(c)[3][1..|c.v| + 1] == c.v && CondWords(d)[3][1..|d.v| + 1] == d.v;
    } else if Kind(c) == 3 {
      assert "between"[0] != ">="[0] && "between"[0] != "<="[0] && ">="[0] != "<="[0];
    }
  }

  lemma {:induction false} WordsDetermine(cs: seq<Cond>, ds: seq<Cond>)
    requires AllCondWords(cs) == AllCondWords(ds)
    ensures cs == ds
    decreases |cs|
  {
    if cs != [] && ds != [] {
      AllCondWordsCons(cs);
      AllCondWordsCons(ds);
      FirstCondition(cs[0], ds[0], AllCondWords(cs[1..]), AllCondWords(ds[1..]));
      WordsDetermine(cs[1..], ds[1..]);
      assert cs == [cs[0]] + cs[1..] && ds == [ds[0]] + ds[1..];
    } else if cs != [] {
      AllCondWordsCons(cs);
    } else if ds != [] {
      AllCondWordsCons(ds);
    }
  }

  lemma SameConditions(start: string, cs: seq<Cond>, ds: seq<Cond>)
    requires WordConds(cs) && WordConds(ds) && start + RenderAll(cs) == start + RenderAll(ds)
    ensures cs == ds
  {
    SameFront(start, RenderAll(cs), RenderAll(ds));
    TextWords(cs);
    TextWords(ds);
    WordsDetermine(cs, ds);
  }

  /** The text of a query determines its conditions, whatever they are and in whatever order. */
  lemma TextDetermines(cs: seq<Cond>, ds: seq<Cond>)
    requires WordConds(cs) && WordConds(ds) && QueryText(cs) == QueryText(ds)
    ensures cs == ds
  {
    SameConditions(SELECT + " where 1=1 ", cs, ds);
  }

  /** A reader of SQL selects with the statement exactly the rows that pass the filters, however numbers
      are read; and every other reading of it as conditions on words comes to the same. */
  ghost predicate Answers(sql: string, f: Filters) {
    && sql == QueryText(Where(f)) && WordConds(Where(f))
    && (forall row: Row, num: string -> real :: Selects(sql, row, num) <==> Passes(row, f, num))
    && forall cs: seq<Cond>, row: Row, num: string -> real :: WordConds(cs) && QueryText(cs) == sql ==>
         (Satisfies(row, cs, num) <==> Passes(row, f, num))
  }

  // ------------------------------------------------------ read as SQL

  lemma {:induction false} SpreadConcat(a: seq<string>, b: seq<string>)
    ensures Spread(a + b) == Spread(a) + Spread(b)
    decreases |a|
  {
    if a == [] {
      assert a + b == b;
    } else {
      assert (a + b)[1..] == a[1..] + b;
      SpreadConcat(a[1..], b);
    }
  }

  lemma FromPiece()
    ensures Spread(["from", "goods", "inner"]) == " from goods inner"
  {
    SpreadTwo("goods", "inner");
    SpreadMore("from", ["goods", "inner"]);
    assert ["from", "goods", "inner"] == ["from"] + ["goods", "inner"];
  }

  lemma JoinPiece()
    ensures Spread(["join", "goods_type"]) == " join goods_type"
  {
    SpreadTwo("join", "goods_type");
  }

  lemma OnPiece()
    ensures Spread(["on", "god_type=godt_id"]) == " on god_type=godt_id"
  {
    SpreadTwo("on", "god_type=godt_id");
  }

  lemma WherePiece()
    ensures Spread(["where", "1=1"]) == " where 1=1"
  {
    SpreadTwo("where", "1=1");
  }

  lemma FivePieces(c: string, w1: seq<string>, w2: seq<string>, w3: seq<string>, w4: seq<string>)
    ensures Spread([c] + (w1 + w2 + w3 + w4)) == " " + c + Spread(w1) + Spread(w2) + Spread(w3) + Spread(w4)
  {
    SpreadMore(c, w1 + w2 + w3 + w4);
    SpreadConcat(w1 + w2 + w3, w4);
    SpreadConcat(w1 + w2, w3);
    SpreadConcat(w1, w2);
    JoinFive(" " + c, Spread(w1), Spread(w2), Spread(w3), Spread(w4));
  }

  lemma JoinFive(a: string, b: string, c: string, d: string, e: string)
    ensures a + (b + c + d + e) == a + b + c + d + e
  {
  }

  lemma Regroup(c: string, p1: string, p2: string, p3: string, p4: string)
    ensures "select " + c + p1 + p2 + p3 + (p4 + " ") == "select" + (" " + c + p1 + p2 + p3 + p4) + " "
  {
  }

  lemma HeadPieces(c: string)
    ensures "select " + c + " from goods inner" + " join goods_type" + " on god_type=godt_id" + " where 1=1 "
            == "select" + Spread([c, "from", "goods", "inner", "join", "goods_type", "on", "god_type=godt_id", "where", "1=1"]) + " "
  {
    var w1, w2, w3, w4 := ["from", "goods", "inner"], ["join", "goods_type"], ["on", "god_type=godt_id"], ["where", "1=1"];
    FromPiece();
    JoinPiece();
    OnPiece();
    WherePiece();
    FivePieces(c, w1, w2, w3, w4);
    assert [c] + (w1 + w2 + w3 + w4)
           == [c, "from", "goods", "inner", "join", "goods_type", "on", "god_type=godt_id", "where", "1=1"];
    Regroup(c, Spread(w1), Spread(w2), Spread(w3), Spread(w4));
    assert " where 1=1 " == " where 1=1" + " ";
  }

  /** The fixed part of a query, word by word. */
  lemma HeadText()
    ensures SELECT + " where 1=1 " == "select" + Spread(HEAD[1..]) + " "
  {
    HeadPieces(COLUMNS);
    assert HEAD[1..] == [COLUMNS, "from", "goods", "inner", "join", "goods_type", "on", "god_type=godt_id", "where", "1=1"];
  }

  lemma HeadAreWords()
    ensures forall k :: 0 <= k < |HEAD| ==> HEAD[k] != "" && NoSpace(HEAD[k])
  {
    assert NoSpace(HEAD[0]) && NoSpace(HEAD[1]) && NoSpace(HEAD[2]) && NoSpace(HEAD[3]);
    assert NoSpace(HEAD[4]) && NoSpace(HEAD[5]) && NoSpace(HEAD[6]) && NoSpace(HEAD[7]);
    assert NoSpace(HEAD[8]) && NoSpace(HEAD[9]) && NoSpace(HEAD[10]);
  }

  lemma QueryWords(cs: seq<Cond>)
    requires WordConds(cs)
    ensures Words(QueryText(cs)) == HEAD + AllCondWords(cs)
  {
    HeadText();
    HeadAreWords();
    TextWords(cs);
    WordsBehindHead("select", HEAD[1..], RenderAll(cs));
    assert "select" + Spread(HEAD[1..]) + " " + RenderAll(cs) == SELECT + " where 1=1 " + RenderAll(cs);
    assert HEAD == ["select"] + HEAD[1..];
  }

  lemma WordsBehindHead(w: string, ws: seq<string>, text: string)
    requires w != "" && NoSpace(w) && forall k :: 0 <= k < |ws| ==> ws[k] != "" && NoSpace(ws[k])
    ensures Words(w + Spread(ws) + " " + text) == [w] + ws + Words(text)
  {
    var tail := " " + text;
    assert w + Spread(ws) + " " + text == w + (Spread(ws) + tail);
    WordsOfSpread(ws, tail);
    SpreadIsDetached(ws, tail);
    WordsOf(w, Spread(ws) + tail);
    WordsBehindSpace(text);
  }

  /** A size condition ends the statement. */
  predicate SizeLast(cs: seq<Cond>) {
    forall k :: 0 <= k < |cs| - 1 ==> !cs[k].SizeIs?
  }

  lemma ReadNumberCond(c: Cond, rest: seq<string>, row: Row, num: string -> real)
    requires c.IdIs? || c.TypeIs?
    ensures CondsHold(CondWords(c) + rest, row, num) <==> Holds(c, row, num) && CondsHold(rest, row, num)
  {
    var ws := CondWords(c) + rest;
    var w := ws[1];
    assert ws[2..] == rest;
    if c.IdIs? {
      assert "god_id=" <= w && w[7..] == c.v;
    } else {
      assert w[4] == 't' && "god_type=" <= w && w[9..] == c.v;
      assert "god_id="[4] == 'i';
    }
  }

  lemma ReadNameCond(v: string, rest: seq<string>, row: Row, num: string -> real)
    ensures CondsHold(CondWords(NameLike(v)) + rest, row, num) <==> Holds(NameLike(v), row, num) && CondsHold(rest, row, num)
  {
    var ws := CondWords(NameLike(v)) + rest;
    assert ws[1] == "god_name" && ws[1][4] == 'n' && "god_id="[4] == 'i' && "god_type="[4] == 't';
    assert ws[3] == "'%" + v + "%'" && Inside(ws[3]) == "%" + v + "%";
    assert ws[4..] == rest;
  }

  lemma ReadSizeCond(v: string, row: Row, num: string -> real)
    ensures CondsHold(CondWords(SizeIs(v)), row, num) <==> Holds(SizeIs(v), row, num)
  {
    var ws := CondWords(SizeIs(v));
    assert ws[1] == "god_size" && ws[1][4] == 's' && "god_id="[4] == 'i' && "god_type="[4] == 't';
    assert Inside(ws[3]) == v;
    assert ws[4..] == [";"];
  }

  lemma ReadPriceCond(c: Cond, rest: seq<string>, row: Row, num: string -> real)
    requires Kind(c) == 3
    ensures CondsHold(CondWords(c) + rest, row, num) <==> Holds(c, row, num) && CondsHold(rest, row, num)
  {
    var ws := CondWords(c) + rest;
    assert ws[1] == "god_price" && ws[1][4] == 'p' && "god_id="[4] == 'i' && "god_type="[4] == 't';
    assert ws[1] != "god_name" && ws[1] != "god_size";
    assert ">="[0] == '>' && "<="[0] == '<' && "between"[0] == 'b';
    if c.PriceBetween? {
      assert ws[6..] == rest;
    } else {
      assert ws[4..] == rest;
    }
  }

  lemma {:induction false} ReadConds(cs: seq<Cond>, row: Row, num: string -> real)
    requires SizeLast(cs)
    ensures CondsHold(AllCondWords(cs), row, num) <==> Satisfies(row, cs, num)
    decreases |cs|
  {
    if cs != [] {
      var c, rest := cs[0], cs[1..];
      AllCondWordsCons(cs);
      ReadConds(rest, row, num);
      assert Satisfies(row, cs, num) <==> Holds(c, row, num) && Satisfies(row, rest, num);
      match c
      case NameLike(v) => ReadNameCond(v, AllCondWords(rest), row, num);
      case SizeIs(v) =>
        assert rest == [] && CondWords(c) + AllCondWords(rest) == CondWords(c);
        ReadSizeCond(v, row, num);
      case IdIs(_) => ReadNumberCond(c, AllCondWords(rest), row, num);
      case TypeIs(_) => ReadNumberCond(c, AllCondWords(rest), row, num);
      case _ => ReadPriceCond(c, AllCondWords(rest), row, num);
    }
  }

  /** A query selects the rows that satisfy its conditions. */
  lemma QuerySelects(cs: seq<Cond>, row: Row, num: string -> real)
    requires WordConds(cs) && SizeLast(cs)
    ensures Selects(QueryText(cs), row, num) <==> Satisfies(row, cs, num)
  {
    QueryWords(cs);
    ReadConds(cs, row, num);
    var ws := Words(QueryText(cs));
    assert ws[..11] == HEAD && ws[11..] == AllCondWords(cs);
  }

  lemma WhereEndsWithSize(f: Filters)
    ensures SizeLast(Where(f))
  {
  }

  // ------------------------------------------------- the quoted texts of the clause

  const QUOTE: char := '\''

  /** The literals of a text as a reader of quotes finds them: each goes on to the next quote, the last
      one to the end of the text if that quote is missing. */
  function Literals(t: string): seq<string>
    decreases |t|
  {
    if t == "" then [] else if t[0] == QUOTE then Literal(t[1..], "") else Literals(t[1..])
  }

  /** The same inside a literal that starts with `sofar`. */
  function Literal(t: string, sofar: string): seq<string>
    decreases |t|
  {
    if t == "" then [sofar]
    else if t[0] == QUOTE then [sofar] + Literals(t[1..])
    else Literal(t[1..], sofar + [t[0]])
  }

  function Quotes(t: string): nat {
    if t == "" then 0 else (if t[0] == QUOTE then 1 else 0) + Quotes(t[1..])
  }

  lemma {:induction false} QuotesOf(a: string, b: string)
    ensures Quotes(a + b) == Quotes(a) + Quotes(b)
    decreases |a|
  {
    if a == "" {
      assert a + b == b;
    } else {
      assert (a + b)[1..] == a[1..] + b;
      QuotesOf(a[1..], b);
    }
  }

  lemma {:induction false} NoQuotes(t: string)
    ensures Quotes(t) == 0 <==> QUOTE !in t
    decreases |t|
  {
    if t != "" {
      NoQuotes(t[1..]);
      assert t == [t[0]] + t[1..];
    }
  }

  /** A literal for every other quote. */
  lemma {:induction false} LiteralCount(t: string)
    ensures |Literals(t)| == (Quotes(t) + 1) / 2
    decreases |t|
  {
    if t != "" {
      if t[0] == QUOTE { InsideCount(t[1..], ""); } else { LiteralCount(t[1..]); }
    }
  }

  lemma {:induction false} InsideCount(t: string, sofar: string)
    ensures |Literal(t, sofar)| == 1 + Quotes(t) / 2
    decreases |t|
  {
    if t != "" {
      if t[0] == QUOTE { LiteralCount(t[1..]); } else { InsideCount(t[1..], sofar + [t[0]]); }
    }
  }

  /** Behind a text all of whose literals are closed reading starts afresh. */
  lemma {:induction false} LiteralsOf(a: string, b: string)
    requires Quotes(a) % 2 == 0
    ensures Literals(a + b) == Literals(a) + Literals(b)
    decreases |a|
  {
    if a == "" {
      assert a + b == b;
    } else {
      assert (a + b)[1..] == a[1..] + b;
      if a[0] == QUOTE { InsideOf(a[1..], "", b); } else { LiteralsOf(a[1..], b); }
    }
  }

  lemma {:induction false} InsideOf(a: string, sofar: string, b: string)
    requires Quotes(a) % 2 == 1
    ensures Literal(a + b, sofar) == Literal(a, sofar) + Literals(b)
    decreases |a|
  {
    assert (a + b)[1..] == a[1..] + b;
    if a[0] == QUOTE {
      LiteralsOf(a[1..], b);
      assert [sofar] + (Literals(a[1..]) + Literals(b)) == [sofar] + Literals(a[1..]) + Literals(b);
    } else {
      InsideOf(a[1..], sofar + [a[0]], b);
    }
  }

  lemma {:induction false} InsideUntil(v: string, sofar: string, b: string)
    requires QUOTE !in v
    ensures Literal(v + (['\''] + b), sofar) == [sofar + v] + Literals(b)
    decreases |v|
  {
    var t := v + (['\''] + b);
    if v == "" {
      assert t == ['\''] + b && t[1..] == b && sofar + v == sofar;
    } else {
      assert t[1..] == v[1..] + (['\''] + b);
      InsideUntil(v[1..], sofar + [v[0]], b);
      assert sofar + [v[0]] + v[1..] == sofar + v;
    }
  }

  lemma NoLiterals(t: string)
    requires QUOTE !in t
    ensures Literals(t) == [] && Quotes(t) == 0
  {
    NoQuotes(t);
    LiteralCount(t);
  }

  lemma OneLiteral(a: string, v: string, b: string)
    requires QUOTE !in a && QUOTE !in b
    ensures var t := a + (['\''] + (v + (['\''] + b)));
            Quotes(t) == 2 + Quotes(v) && (QUOTE !in v ==> Literals(t) == [v])
  {
    NoLiterals(a);
    NoLiterals(b);
    var inner := v + (['\''] + b);
    assert (['\''] + b)[1..] == b && (['\''] + inner)[1..] == inner;
    QuotesOf(v, ['\''] + b);
    QuotesOf(a, ['\''] + inner);
    LiteralsOf(a, ['\''] + inner);
    if QUOTE !in v {
      InsideUntil(v, "", b);
      assert "" + v == v;
    }
  }

  /** The text a condition means to quote. */
  function Quoted(c: Cond): seq<string> {
    match c
    case NameLike(v) => ["%" + v + "%"]
    case SizeIs(v) => [v]
    case _ => []
  }

  function QuotedLists(cs: seq<Cond>): seq<seq<string>> {
    seq(|cs|, k requires 0 <= k < |cs| => Quoted(cs[k]))
  }

  function AllQuoted(cs: seq<Cond>): seq<string> {
    Flatten(QuotedLists(cs))
  }

  function ValueOf(c: Cond): string {
    match c
    case IdIs(v) => v
    case NameLike(v) => v
    case TypeIs(v) => v
    case PriceBetween(l, h) => l + h
    case PriceFrom(l) => l
    case PriceTo(h) => h
    case SizeIs(v) => v
  }

  predicate Quoteless(cs: seq<Cond>) {
    forall k :: 0 <= k < |cs| ==> QUOTE !in ValueOf(cs[k])
  }

  /** A text has two quotes for each literal it is meant to have, and those of the value in it. */
  predicate ReadsWell(text: string, value: string, quoted: seq<string>) {
    && Quotes(text) == 2 * |quoted| + Quotes(value)
    && (QUOTE !in value ==> Literals(text) == quoted)
  }

  lemma NumberReads(start: string, v: string)
    requires QUOTE !in start
    ensures ReadsWell(start + v, v, [])
  {
    NoLiterals(start);
    QuotesOf(start, v);
    LiteralsOf(start, v);
    if QUOTE !in v { NoLiterals(v); }
  }

  lemma NameReads(v: string)
    ensures ReadsWell(Render(NameLike(v)), v, ["%" + v + "%"])
  {
    var q := "%" + v + "%";
    OneLiteral(" and god_name like ", q, " ");
    QuotesOf("%" + v, "%");
    QuotesOf("%", v);
    NoLiterals("%");
    NamePieces(v, q);
  }

  lemma NamePieces(v: string, q: string)
    requires q == "%" + v + "%"
    ensures Render(NameLike(v)) == " and god_name like " + (['\''] + (q + (['\''] + " ")))
  {
  }

  lemma SizeReads(v: string)
    ensures ReadsWell(Render(SizeIs(v)), v, [v])
  {
    OneLiteral(" and god_size = ", v, " ;");
    SizePieces(v);
  }

  lemma SizePieces(v: string)
    ensures Render(SizeIs(v)) == " and god_size = " + (['\''] + (v + (['\''] + " ;")))
  {
  }

  lemma BetweenReads(l: string, h: string)
    ensures ReadsWell(Render(PriceBetween(l, h)), l + h, [])
  {
    NumberReads(" and god_price between ", l);
    NumberReads(" and ", h);
    BetweenPieces(l, h);
    var none: seq<string> := [];
    AppendReads(" and god_price between " + l, l, none, " and " + h, h, none);
    assert none + none == [];
  }

  lemma BetweenPieces(l: string, h: string)
    ensures Render(PriceBetween(l, h)) == (" and god_price between " + l) + (" and " + h)
  {
  }

  lemma RenderReads(c: Cond)
    ensures ReadsWell(Render(c), ValueOf(c), Quoted(c))
  {
    match c
    case IdIs(v) => NumberReads(" and god_id=", v);
    case NameLike(v) => NameReads(v);
    case TypeIs(v) => NumberReads(" and god_type=", v);
    case PriceBetween(l, h) => BetweenReads(l, h);
    case PriceFrom(l) => NumberReads(" and god_price >= ", l);
    case PriceTo(h) => NumberReads(" and god_price <= ", h);
    case SizeIs(v) => SizeReads(v);
  }

  lemma {:induction false} JoinReads(texts: seq<string>, values: seq<string>, quoted: seq<seq<string>>)
    requires |texts| == |values| == |quoted|
    requires forall k :: 0 <= k < |texts| ==> ReadsWell(texts[k], values[k], quoted[k])
    ensures ReadsWell(Join(texts), Join(values), Flatten(quoted))
    decreases |texts|
  {
    if texts != [] {
      var n := |texts| - 1;
      JoinReads(texts[..n], values[..n], quoted[..n]);
      FlattenLast(quoted);
      AppendReads(Join(texts[..n]), Join(values[..n]), Flatten(quoted[..n]), texts[n], values[n], quoted[n]);
    }
  }

  lemma AppendReads(a: string, v: string, p: seq<string>, b: string, w: string, q: seq<string>)
    requires ReadsWell(a, v, p) && ReadsWell(b, w, q)
    ensures ReadsWell(a + b, v + w, p + q)
  {
    QuotesOf(a, b);
    QuotesOf(v, w);
    if QUOTE !in v + w {
      NoQuotes(v + w);
      NoQuotes(v);
      NoQuotes(w);
      LiteralsOf(a, b);
    }
  }

  function AllValues(cs: seq<Cond>): seq<string> {
    seq(|cs|, k requires 0 <= k < |cs| => ValueOf(cs[k]))
  }

  lemma {:induction false} JoinHas(texts: seq<string>, c: char)
    ensures c in Join(texts) <==> exists k :: 0 <= k < |texts| && c in texts[k]
    decreases |texts|
  {
    if texts != [] {
      var n := |texts| - 1;
      JoinHas(texts[..n], c);
      if c in texts[n] { assert c in Join(texts); }
      if k :| 0 <= k < n && c in texts[..n][k] { assert c in texts[k]; }
      if k :| 0 <= k < |texts| && c in texts[k] { assert k < n ==> c in texts[..n][k]; }
    }
  }

  lemma WellReadExactly(text: string, value: string, quoted: seq<string>)
    requires ReadsWell(text, value, quoted)
    ensures Literals(text) == quoted <==> QUOTE !in value
  {
    LiteralCount(text);
    NoQuotes(value);
  }

  /** A reader of quotes finds in the conditions of a query the texts they mean to quote if and only if no
      value contains a quote. */
  lemma LiteralsExact(cs: seq<Cond>)
    ensures Literals(RenderAll(cs)) == AllQuoted(cs) <==> Quoteless(cs)
  {
    forall k | 0 <= k < |cs| ensures ReadsWell(Texts(cs)[k], AllValues(cs)[k], QuotedLists(cs)[k]) {
      RenderReads(cs[k]);
    }
    JoinReads(Texts(cs), AllValues(cs), QuotedLists(cs));
    WellReadExactly(RenderAll(cs), Join(AllValues(cs)), AllQuoted(cs));
    JoinHas(AllValues(cs), QUOTE);
    assert forall k :: 0 <= k < |cs| ==> AllValues(cs)[k] == ValueOf(cs[k]);
  }

  /** A size that a form can carry and that is not read as it is meant. */
  lemma SizeWithQuotes()
    ensures var v := "x'or'1"; CleanField(v) && Literals(RenderAll([SizeIs(v)])) != AllQuoted([SizeIs(v)])
  {
    var v := "x'or'1";
    var cs := [SizeIs(v)];
    assert v[1] == QUOTE && ValueOf(cs[0]) == v;
    LiteralsExact(cs);
  }

  predicate WordFilters(f: Filters) {
    NoSpace(f.id) && NoSpace(f.name) && NoSpace(f.typ) && NoSpace(f.low) && NoSpace(f.high) && NoSpace(f.size)
  }

  lemma WhereHasWords(f: Filters)
    requires WordFilters(f)
    ensures WordConds(Where(f))
  {
    assert WordConds(IdPart(f) + NamePart(f) + TypePart(f));
    assert WordConds(PricePart(f) + SizePart(f));
    assert Where(f) == IdPart(f) + NamePart(f) + TypePart(f) + (PricePart(f) + SizePart(f));
  }

  lemma AnswersBecause(f: Filters)
    requires WordFilters(f)
    ensures Answers(QueryText(Where(f)), f)
  {
    var sql := QueryText(Where(f));
    WhereHasWords(f);
    forall cs: seq<Cond>, row: Row, num: string -> real | WordConds(cs) && QueryText(cs) == sql
      ensures Satisfies(row, cs, num) <==> Passes(row, f, num)
    {
      TextDetermines(cs, Where(f));
      WhereMeaning(f, row, num);
    }
    WhereEndsWithSize(f);
    forall row: Row, num: string -> real ensures Selects(sql, row, num) <==> Passes(row, f, num) {
      QuerySelects(Where(f), row, num);
      WhereMeaning(f, row, num);
    }
  }

  lemma RenderBoth(cs: seq<Cond>, part: seq<Cond>)
    requires |part| <= 1
    ensures QueryText(cs + part) == QueryText(cs) + if part == [] then "" else Render(part[0])
  {
    AppendPart(SELECT + " where 1=1 ", cs, part);
  }

  lemma AppendPart(start: string, cs: seq<Cond>, part: seq<Cond>)
    requires |part| <= 1
    ensures start + RenderAll(cs + part) == start + RenderAll(cs) + if part == [] then "" else Render(part[0])
  {
    if part == [] {
      assert cs + part == cs;
    } else {
      assert part == [part[0]];
      RenderOneMore(cs, part[0]);
      assert start + RenderAll(cs) + Render(part[0]) == start + (RenderAll(cs) + Render(part[0]));
    }
  }

  /** The three-way branch on the price bounds. */
  method BuildPrice(f: Filters, sql: string, ghost cs: seq<Cond>) returns (sql': string)
    requires sql == QueryText(cs)
    ensures sql' == QueryText(cs + PricePart(f))
  {
    RenderBoth(cs, PricePart(f));
    sql' := sql;
    if |f.low| > 0 && |f.high| > 0 && f.low != "xx.xx" && f.high != "xx.xx" {
      sql' := sql' + (" and god_price between " + f.low + " and " + f.high);
    } else if |f.low| > 0 && f.low != "xx.xx" {
      sql' := sql' + (" and god_price >= " + f.low);
    } else if |f.high| > 0 && f.high != "xx.xx" {
      sql' := sql' + (" and god_price <= " + f.high);
    }
  }

  /** The tests on id and name. */
  method BuildIdentity(f: Filters) returns (sql: string)
    ensures sql == QueryText(IdPart(f) + NamePart(f))
  {
    RenderBoth([], IdPart(f));
    assert [] + IdPart(f) == IdPart(f);
    sql := SELECT + " where 1=1 ";
    assert sql == QueryText([]);
    if |f.id| > 0 && f.id != "xx" {
      sql := sql + (" and god_id=" + f.id);
    }
    assert sql == QueryText(IdPart(f));
    RenderBoth(IdPart(f), NamePart(f));
    if |f.name| > 0 && f.name != "xx" {
      sql := sql + (" and god_name like '%" + f.name + "%' ");
    }
  }

  /** The test on the type. */
  method BuildType(f: Filters, sql: string, ghost cs: seq<Cond>) returns (sql': string)
    requires sql == QueryText(cs)
    ensures sql' == QueryText(cs + TypePart(f))
  {
    RenderBoth(cs, TypePart(f));
    sql' := sql;
    if |f.typ| > 0 && f.typ != "-1" {
      sql' := sql' + (" and god_type=" + f.typ);
    }
  }

  /** The statement for decoded filters. */
  method BuildWhere(f: Filters) returns (sql: string)
    ensures sql == QueryText(Where(f))
    ensures WordFilters(f) ==> Answers(sql, f)
  {
    sql := BuildIdentity(f);
    sql := BuildType(f, sql, IdPart(f) + NamePart(f));
    sql := BuildPrice(f, sql, IdPart(f) + NamePart(f) + TypePart(f));
    RenderBoth(IdPart(f) + NamePart(f) + TypePart(f) + PricePart(f), SizePart(f));
    if |f.size| > 0 && f.size != "any" {
      sql := sql + (" and god_size = '" + f.size + "' ;");
    }
    if WordFilters(f) {
      AnswersBecause(f);
    }
  }

  function Field(vs: seq<string>, k: nat): string {
    if k < |vs| then vs[k] else ""
  }

  /** The six zero-initialised field buffers after the `sscanf`. */
  function FiltersOf(form: string): Filters {
    var vs := ScanValues(Spaced(form), 6);
    Filters(Field(vs, 0), Field(vs, 1), Field(vs, 2), Field(vs, 3), Field(vs, 4), Field(vs, 5))
  }

  /** `get_select_sql`. */
  method GetSelectSql(data: array?<char>) returns (sql: string)
    requires data != null ==> NUL in data[..]
    requires data != null ==>
               forall v :: v in ScanValues(Spaced(CStr(data[..])), 6) ==> |v| < FIELD_SIZE
    modifies data
    ensures data == null ==> sql == SELECT + ";"
    ensures data != null ==> Answers(sql, FiltersOf(CStr(old(data[..]))))
  {
    if data == null {
      sql := SELECT + ";";
    } else {
      ScannedWords(Spaced(CStr(data[..])), 6);
      ReplaceSeparators(data);
      var vs := ScanValues(CStr(data[..]), 6);
      var f := Filters(Field(vs, 0), Field(vs, 1), Field(vs, 2), Field(vs, 3), Field(vs, 4), Field(vs, 5));
      sql := BuildWhere(f);
    }
  }

  const ANY_SIZE := "&god_size=any"

  /** The form as `main` passes it on: no size button chosen means any size. */
  function WithSize(form: string): string {
    if Contains(form, "god_size") then form else form + ANY_SIZE
  }

  /** `strstr` and `strcat` on the posted data. */
  method EnsureSize(data: array<char>)
    requires NUL in data[..] && |WithSize(CStr(data[..]))| < data.Length
    modifies data
    ensures NUL in data[..] && CStr(data[..]) == WithSize(CStr(old(data[..])))
  {
    if !Contains(CStr(data[..]), "god_size") {
      Strcat(data, |CStr(data[..])|, ANY_SIZE);
    }
  }

  /** `strcat(data, text)`, the string in `data` being `n` long. */
  method Strcat(data: array<char>, n: nat, text: string)
    requires NUL in data[..] && n == |CStr(data[..])| && n + |text| < data.Length && NUL !in text
    modifies data
    ensures NUL in data[..] && CStr(data[..]) == CStr(old(data[..])) + text
  {
    ghost var s := data[..];
    for j := 0 to |text|
      invariant forall k :: 0 <= k < n ==> data[k] == s[k]
      invariant forall k :: 0 <= k < j ==> data[n + k] == text[k]
    {
      data[n + j] := text[j];
    }
    data[n + |text|] := NUL;
    ghost var d, u := data[..], CStr(s);
    assert d[..n + |text|] == u + text;
    assert d == (u + text) + d[n + |text|..];
    CStrOfPrefix(u + text, d[n + |text|..]);
    assert d[n + |text|] == NUL;
  }

  /** A search with every field at its default selects every row, with one field set those that field
      asks for. */
  lemma OneFilter(v: string, row: Row, num: string -> real)
    requires v != ""
    ensures var all := Filters("xx", "xx", "-1", "xx.xx", "xx.xx", "any");
            && Passes(row, all, num)
            && (v != "xx" ==> (Passes(row, all.(id := v), num) <==> row.id == num(v)))
            && (v != "xx" ==> (Passes(row, all.(name := v), num) <==> NameMatches(v, row.name)))
            && (v != "-1" ==> (Passes(row, all.(typ := v), num) <==> row.typ == num(v)))
            && (v != "xx.xx" ==> (Passes(row, all.(low := v), num) <==> row.price >= num(v)))
            && (v != "xx.xx" ==> (Passes(row, all.(high := v), num) <==> row.price <= num(v)))
            && (v != "any" ==> (Passes(row, all.(size := v), num) <==> row.size == v))
  {
  }

  /** The search form with all six fields filled in is understood field by field. */
  lemma FullSearchForm(keys: seq<string>, f: Filters)
    requires |keys| == 6 && forall k :: 0 <= k < 6 ==> Clean(keys[k])
    requires CleanField(f.id) && CleanField(f.name) && CleanField(f.typ)
             && CleanField(f.low) && CleanField(f.high) && CleanField(f.size)
    ensures FiltersOf(PrintForm(Fill(keys, [f.id, f.name, f.typ, f.low, f.high, f.size]))) == f
  {
    FilledForm(keys, [f.id, f.name, f.typ, f.low, f.high, f.size]);
  }

  /** ... also when the default size is appended behind it, as happens when no field is called that. */
  lemma FullSearchFormWithSize(keys: seq<string>, f: Filters)
    requires |keys| == 6 && forall k :: 0 <= k < 6 ==> Clean(keys[k])
    requires CleanField(f.id) && CleanField(f.name) && CleanField(f.typ)
             && CleanField(f.low) && CleanField(f.high) && CleanField(f.size)
    ensures var form := WithSize(PrintForm(Fill(keys, [f.id, f.name, f.typ, f.low, f.high, f.size])));
            NUL !in form && ScanValues(Spaced(form), 6) == [f.id, f.name, f.typ, f.low, f.high, f.size] && FiltersOf(form) == f
  {
    var values := [f.id, f.name, f.typ, f.low, f.high, f.size];
    FilledForm(keys, values);
    if !Contains(PrintForm(Fill(keys, values)), "god_size") {
      SevenFields(keys, values);
    }
  }

  lemma SevenFields(keys: seq<string>, values: seq<string>)
    requires |keys| == |values| == 6
    requires forall k :: 0 <= k < 6 ==> Clean(keys[k]) && CleanField(values[k])
    ensures ScanValues(Spaced(PrintForm(Fill(keys, values)) + ANY_SIZE), 6) == values
    ensures NUL !in PrintForm(Fill(keys, values)) + ANY_SIZE
  {
    var ps, p := Fill(keys, values), Pair("god_size", "any");
    AppendSize(ps, p);
    FilledValues(ps + [p], 6);
    FormHasNoNul(ps + [p]);
    assert Values(ps + [p])[..6] == values;
  }

  /** Without a size button the sixth filter does not restrict the search, even when some other field
      happens to contain "god_size". */
  lemma SearchFormWithoutSize(keys: seq<string>, f: Filters)
    requires |keys| == 5 && forall k :: 0 <= k < 5 ==> Clean(keys[k])
    requires CleanField(f.id) && CleanField(f.name) && CleanField(f.typ) && CleanField(f.low) && CleanField(f.high)
    ensures var form := PrintForm(Fill(keys, [f.id, f.name, f.typ, f.low, f.high]));
            FiltersOf(WithSize(form)) == f.(size := if Contains(form, "god_size") then "" else "any")
  {
    var values := [f.id, f.name, f.typ, f.low, f.high];
    var ps := Fill(keys, values);
    if Contains(PrintForm(ps), "god_size") {
      FilledValues(ps, 6);
      assert Values(ps)[..5] == values;
    } else {
      AnySizeForm(keys, values);
    }
  }

  lemma FillOneMore(keys: seq<string>, values: seq<string>, key: string, value: string)
    requires |keys| == |values|
    ensures Fill(keys + [key], values + [value]) == Fill(keys, values) + [Pair(key, value)]
  {
  }

  lemma AppendSize(ps: seq<Pair>, p: Pair)
    requires ps != [] && p == Pair("god_size", "any")
    ensures PrintForm(ps) + ANY_SIZE == PrintForm(ps + [p])
  {
    AppendPair(ps, p);
    assert ANY_SIZE == "&" + PrintPair(p);
    assert PrintForm(ps) + "&" + PrintPair(p) == PrintForm(ps) + ("&" + PrintPair(p));
  }

  lemma AnySizeForm(keys: seq<string>, values: seq<string>)
    requires |keys| == |values| == 5
    requires forall k :: 0 <= k < 5 ==> Clean(keys[k]) && CleanField(values[k])
    ensures ScanValues(Spaced(PrintForm(Fill(keys, values)) + ANY_SIZE), 6) == values + ["any"]
  {
    var ps, p := Fill(keys, values), Pair("god_size", "any");
    AppendSize(ps, p);
    FillOneMore(keys, values, "god_size", "any");
    FilledForm(keys + ["god_size"], values + ["any"]);
  }

  lemma {:induction false} AppendPair(ps: seq<Pair>, p: Pair)
    requires ps != []
    ensures PrintForm(ps + [p]) == PrintForm(ps) + "&" + PrintPair(p)
    decreases |ps|
  {
    assert (ps + [p])[1..] == ps[1..] + [p];
    assert PrintForm(ps + [p]) == PrintPair(ps[0]) + "&" + PrintForm(ps[1..] + [p]);
    if |ps| > 1 {
      AppendPair(ps[1..], p);
    } else {
      assert (ps + [p])[1..] == [p];
    }
  }
}
