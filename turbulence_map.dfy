/** Pure logic of the turbulence page: the HTML rows of the context tables,
    the request URLs of the map layers, the SIGMET hazard colour and the
    aircraft identifier a click reports.

    `URLSearchParams` is modelled by its form-urlencoded serializer on the
    UTF-8 bytes of each value. */
module TurbulenceMap {
  import opened Common

  // ------------------------------------------------------------ form encoding

  /** The UTF-8 bytes of one Unicode scalar value. */
  function Utf8(c: char): (bs: seq<nat>)
    ensures 1 <= |bs| <= 4
    ensures forall i :: 0 <= i < |bs| ==> bs[i] < 256
    ensures (|bs| == 1) == (c as int < 0x80)
    ensures |bs| == 1 ==> bs[0] == c as int
  {
    var n := c as int;
    if n < 0x80 then [n]
    else if n < 0x800 then [0xC0 + n / 64, 0x80 + n % 64]
    else if n < 0x1_0000 then [0xE0 + n / 4096, 0x80 + (n / 64) % 64, 0x80 + n % 64]
    else [0xF0 + n / 262144, 0x80 + (n / 4096) % 64, 0x80 + (n / 64) % 64, 0x80 + n % 64]
  }

  function HexDigit(d: nat): (c: char)
    requires d < 16
    ensures '0' <= c <= '9' || 'A' <= c <= 'F'
  {
    "0123456789ABCDEF"[d]
  }

  /** The bytes the serializer leaves as they are: `*-._`, digits and letters. */
  predicate IsSafeByte(b: nat)
  {
    b == 0x2A || b == 0x2D || b == 0x2E || 0x30 <= b <= 0x39 || 0x41 <= b <= 0x5A || b == 0x5F || 0x61 <= b <= 0x7A
  }

  function EncodeByte(b: nat): (s: string)
    requires b < 256
    ensures '&' !in s && '=' !in s && '?' !in s && '/' !in s && '#' !in s
  {
    if b == 0x20 then "+"
    else if IsSafeByte(b) then [b as char]
    else ['%', HexDigit(b / 16), HexDigit(b % 16)]
  }

  function EncodeBytes(bs: seq<nat>): (s: string)
    requires forall i :: 0 <= i < |bs| ==> bs[i] < 256
    ensures '&' !in s && '=' !in s && '?' !in s && '/' !in s && '#' !in s
  {
    if bs == [] then "" else EncodeByte(bs[0]) + EncodeBytes(bs[1..])
  }

  /** The application/x-www-form-urlencoded form of one name or value. */
  function FormEncode(s: string): (e: string)
    ensures '&' !in e && '=' !in e && '?' !in e && '/' !in e && '#' !in e
  {
    if s == [] then "" else EncodeBytes(Utf8(s[0])) + FormEncode(s[1..])
  }

  predicate IsSafeChar(c: char)
  {
    IsSafeByte(c as int)
  }

  /** A value made only of safe characters is sent unchanged. */
  lemma {:induction false} FormEncodeSafe(s: string)
    requires forall i :: 0 <= i < |s| ==> IsSafeChar(s[i])
    ensures FormEncode(s) == s
  {
    if s != [] {
      FormEncodeSafe(s[1..]);
      assert EncodeBytes(Utf8(s[0])) == [s[0]] by {
        assert Utf8(s[0]) == [s[0] as int];
        assert EncodeBytes([s[0] as int]) == EncodeByte(s[0] as int) + EncodeBytes([]);
      }
    }
  }

  /** Decimal integers are safe. */
  lemma IntSafe(i: int)
    ensures forall k :: 0 <= k < |IntToDecimal(i)| ==> IsSafeChar(IntToDecimal(i)[k])
  {
    var s := IntToDecimal(i);
    if i < 0 {
      var d := NatToDecimal(-i);
      assert s == "-" + d;
      assert forall k :: 1 <= k < |s| ==> s[k] == d[k - 1];
    }
  }

  // ------------------------------------------------------------ layer URLs

  const PlanesBase: string := "planes.geojson"
  const TurbulenceBase: string := "turb.geojson"
  const HeatmapBase: string := "heatmap.data"

  /** A parameter declared with a default (`und = null`): an argument
      that is left out or passed as `undefined` takes the default. */
  function WithDefault(arg: JsValue, fallback: JsValue): (v: JsValue)
    ensures arg != Undefined ==> v == arg
    ensures arg == Undefined ==> v == fallback
  {
    if arg == Undefined then fallback else arg
  }

  /** The URL `getPlanes`, `getTurbulence` and `getheatmap` request from
      their base: `/und` unless `und` is null (its default), then
      `?history=…` when `history` is truthy (non-zero). */
  function ResourceUrl(base: string, und: JsValue, history: int): string
  {
    var u := WithDefault(und, Null);
    var path := if u != Null then base + "/" + JsString(u) else base;
    if history != 0 then path + "?" + HistoryQuery(history) else path
  }

  /** `new URLSearchParams({ history: history })`, serialized. */
  function HistoryQuery(history: int): string
  {
    "history=" + FormEncode(IntToDecimal(history))
  }

  /** The builders reassign `url` one condition at a time. */
  method BuildResourceUrl(base: string, und: JsValue, history: int) returns (url: string)
    ensures url == ResourceUrl(base, und, history)
  {
    var u := WithDefault(und, Null);
    url := base;
    if u != Null {
      url := url + "/" + JsString(u);
    }
    if history != 0 {
      var searchParams := HistoryQuery(history);
      url := url + "?" + searchParams;
    }
  }

  /** With the default arguments the URL is the bare base. */
  lemma DefaultResourceUrl(base: string)
    ensures ResourceUrl(base, Null, 0) == base
  {
  }

  /** The text of a value never holds a `?` unless it is a string that does. */
  lemma {:induction false} NoQuestionMark(v: JsValue)
    requires v.Str? ==> '?' !in v.s
    ensures '?' !in JsString(v)
  {
    if v.Num? {
      IntSafe(v.n);
    }
  }

  /** The history query is present exactly when `history` is non-zero. */
  lemma ResourceUrlQuery(base: string, und: JsValue, history: int)
    requires '?' !in base
    requires und.Str? ==> '?' !in und.s
    ensures '?' in ResourceUrl(base, und, history) <==> history != 0
  {
    var u := WithDefault(und, Null);
    NoQuestionMark(u);
    var path := if u != Null then base + "/" + JsString(u) else base;
    assert '?' !in path;
    if history != 0 {
      assert ResourceUrl(base, und, history) == path + "?" + HistoryQuery(history);
      assert (path + "?")[|path|] == '?';
    }
  }

  /** The path segment is present exactly when `und` is given: neither
      null nor undefined. */
  lemma ResourceUrlPath(base: string, und: JsValue, history: int)
    requires '/' !in base
    ensures '/' in ResourceUrl(base, und, history) <==> und != Null && und != Undefined
  {
    var u := WithDefault(und, Null);
    assert '/' !in HistoryQuery(history);
    if u != Null {
      assert (base + "/")[|base|] == '/';
    }
  }

  /** Passing `undefined` explicitly gives the URL of the default
      arguments. */
  lemma UndefinedArgumentsAreDefaults(base: string, history: int, wef: JsValue, und: JsValue)
    ensures ResourceUrl(base, Undefined, history) == ResourceUrl(base, Null, history)
    ensures ContextUrl(base, Undefined, und) == base
    ensures ContextUrl(base, wef, Undefined) == base
  {
  }

  /** The history value is sent as its decimal digits, which read back as
      `history` when it is positive. */
  lemma HistoryQueryDigits(history: int)
    ensures HistoryQuery(history) == "history=" + IntToDecimal(history)
    ensures history > 0 ==> AllDigits(IntToDecimal(history)) && DecimalValue(IntToDecimal(history)) == history
  {
    IntSafe(history);
    FormEncodeSafe(IntToDecimal(history));
    if history > 0 {
      DecimalRoundTrip(history);
    }
  }

  const SigmetBase: string := "context/sigmet"
  const AirepBase: string := "context/airep"
  const CatBase: string := "context/cat"

  /** `getSigmet`, `getAirep`, `getCat`: the time window is sent only when
      both ends are given (neither is its default null). */
  function ContextUrl(base: string, wef: JsValue, und: JsValue): string
  {
    var w := WithDefault(wef, Null);
    var u := WithDefault(und, Null);
    if w != Null && u != Null then base + "?" + WindowQuery(w, u) else base
  }

  /** `new URLSearchParams({ wef: wef, und: und })`, serialized. */
  function WindowQuery(wef: JsValue, und: JsValue): string
  {
    "wef=" + FormEncode(JsString(wef)) + "&" + "und=" + FormEncode(JsString(und))
  }

  method BuildContextUrl(base: string, wef: JsValue, und: JsValue) returns (url: string)
    ensures url == ContextUrl(base, wef, und)
  {
    var w := WithDefault(wef, Null);
    var u := WithDefault(und, Null);
    url := base;
    if w != Null && u != Null {
      var searchParams := WindowQuery(w, u);
      url := url + "?" + searchParams;
    }
  }

  /** The query appears exactly when both ends are given. */
  lemma ContextUrlQuery(base: string, wef: JsValue, und: JsValue)
    requires '?' !in base
    ensures '?' in ContextUrl(base, wef, und) <==>
      wef != Null && wef != Undefined && und != Null && und != Undefined
    ensures wef == Null || wef == Undefined || und == Null || und == Undefined ==> ContextUrl(base, wef, und) == base
  {
    if wef != Null && wef != Undefined && und != Null && und != Undefined {
      assert (base + "?")[|base|] == '?';
    }
  }

  /** The serialized window is its two encoded values behind their names;
      neither value can hold the `&` or `=` separators. */
  lemma WindowQueryParts(wef: JsValue, und: JsValue)
    ensures var a := FormEncode(JsString(wef)); var b := FormEncode(JsString(und));
      WindowQuery(wef, und) == "wef=" + a + "&und=" + b
      && '&' !in a && '=' !in a && '&' !in b && '=' !in b
  {
    var a := FormEncode(JsString(wef));
    var b := FormEncode(JsString(und));
    ConcatAssoc("wef=" + a, "&", "und=" + b);
    ConcatAssoc("wef=" + a + "&", "und=", b);
    assert "&" + "und=" == "&und=";
    ConcatAssoc("wef=" + a, "&", "und=");
  }

  /** The serialized window holds exactly one `&` and two `=`: the
      separators the serializer inserts, so the query splits back into
      the two name/value pairs at them. */
  lemma WindowQuerySeparators(wef: JsValue, und: JsValue)
    ensures CountChar(WindowQuery(wef, und), '&') == 1
    ensures CountChar(WindowQuery(wef, und), '=') == 2
  {
    PairSeparators(FormEncode(JsString(wef)), FormEncode(JsString(und)));
  }

  lemma PairSeparators(a: string, b: string)
    requires '&' !in a && '=' !in a && '&' !in b && '=' !in b
    ensures CountChar("wef=" + a + "&" + "und=" + b, '&') == 1
    ensures CountChar("wef=" + a + "&" + "und=" + b, '=') == 2
  {
    var p1 := "wef=" + a;
    var p2 := p1 + "&";
    var p3 := p2 + "und=";
    assert CountChar("wef=", '&') == 0 && CountChar("&", '&') == 1 && CountChar("und=", '&') == 0;
    assert CountChar("wef=", '=') == 1 && CountChar("&", '=') == 0 && CountChar("und=", '=') == 1;
    SeparatorCount(a, '&');
    SeparatorCount(b, '&');
    SeparatorCount(a, '=');
    SeparatorCount(b, '=');
    CountCharAppend(p1, "&", '&');
    CountCharAppend(p2, "und=", '&');
    CountCharAppend(p1, "&", '=');
    CountCharAppend(p2, "und=", '=');
  }

  /** The counting steps of `WindowQuerySeparators` for one character. */
  lemma SeparatorCount(v: string, c: char)
    requires c !in v
    ensures CountChar(v, c) == 0
    ensures forall w :: CountChar(w + v, c) == CountChar(w, c)
  {
    NoCharCount(v, c);
    forall w ensures CountChar(w + v, c) == CountChar(w, c) {
      CountCharAppend(w, v, c);
    }
  }

  // ------------------------------------------------------------ hazard colour and icao

  /** The SIGMET style rule; `==` against a string literal is true only for
      that very string. */
  function HazardColour(d: JsValue): (c: string)
    ensures c == "black" <==> d !in {Str("TS"), Str("TURB"), Str("MTW"), Str("ICE")}
  {
    if d == Str("TS") then "red"
    else if d == Str("TURB") then "blue"
    else if d == Str("MTW") then "yellow"
    else if d == Str("ICE") then "gray"
    else "black"
  }

  /** Each known hazard has its own colour. */
  lemma HazardColourDistinguishes(a: JsValue, b: JsValue)
    requires HazardColour(a) == HazardColour(b) != "black"
    ensures a == b
  {
  }

  /** `whenClicked`: the feature's own `icao`, unless it is undefined. The
      test is strict (`=== undefined`), so an own `null` id is kept rather
      than replaced by the geometry's. */
  function ClickedIcao(properties: map<string, JsValue>, geometryProperties: map<string, JsValue>): (icao: JsValue)
    ensures Lookup(properties, "icao") != Undefined ==> icao == Lookup(properties, "icao")
    ensures Lookup(properties, "icao") == Undefined ==> icao == Lookup(geometryProperties, "icao")
    ensures icao != Undefined <==> Lookup(properties, "icao") != Undefined || Lookup(geometryProperties, "icao") != Undefined
    ensures Lookup(properties, "icao") == Null ==> icao == Null
  {
    if Lookup(properties, "icao") == Undefined then Lookup(geometryProperties, "icao") else Lookup(properties, "icao")
  }

  // ------------------------------------------------------------ context tables

  /** The text of one cell: `item["properties"][field + ""]`, stringified. */
  function CellText(properties: map<string, JsValue>, field: JsValue): string
  {
    JsString(Lookup(properties, JsString(field)))
  }

  function Cell(properties: map<string, JsValue>, field: JsValue): string
  {
    "<td>" + CellText(properties, field) + "</td>"
  }

  function Cells(properties: map<string, JsValue>, fields: seq<JsValue>): string
  {
    if fields == [] then "" else Cells(properties, fields[..|fields| - 1]) + Cell(properties, fields[|fields| - 1])
  }

  /** A row as `loadTable` writes it: closed by a second opening tag. */
  function RowAsWritten(properties: map<string, JsValue>, fields: seq<JsValue>): string
  {
    "<tr>" + Cells(properties, fields) + "<tr>"
  }

  function TableAsWritten(fields: seq<JsValue>, data: seq<map<string, JsValue>>): string
  {
    if data == [] then "" else TableAsWritten(fields, data[..|data| - 1]) + RowAsWritten(data[|data| - 1], fields)
  }

  /** `loadTable`: the `rows` string handed to the table body. */
  method LoadTable(fields: seq<JsValue>, data: seq<map<string, JsValue>>) returns (rows: string)
    ensures rows == TableAsWritten(fields, data)
  {
    rows := "";
    for k := 0 to |data|
      invariant rows == TableAsWritten(fields, data[..k])
    {
      var item := data[k];
      var row := "<tr>";
      for j := 0 to |fields|
        invariant row == "<tr>" + Cells(item, fields[..j])
      {
        var cell := "<td>" + CellText(item, fields[j]) + "</td>";
        assert fields[..j + 1][..j] == fields[..j];
        ConcatAssoc("<tr>", Cells(item, fields[..j]), cell);
        row := row + cell;
      }
      assert fields[..|fields|] == fields;
      assert data[..k + 1][..k] == data[..k];
      rows := rows + (row + "<tr>");
    }
    assert data[..|data|] == data;
  }

  /** A row as intended: closed by `</tr>`. */
  function ClosedRow(properties: map<string, JsValue>, fields: seq<JsValue>): string
  {
    "<tr>" + Cells(properties, fields) + "</tr>"
  }

  function ClosedTable(fields: seq<JsValue>, data: seq<map<string, JsValue>>): string
  {
    if data == [] then "" else ClosedTable(fields, data[..|data| - 1]) + ClosedRow(data[|data| - 1], fields)
  }

  /** No cell text holds a `<`, so every `<` in the table starts a tag. */
  predicate PlainValues(fields: seq<JsValue>, data: seq<map<string, JsValue>>)
  {
    forall k, j :: 0 <= k < |data| && 0 <= j < |fields| ==> '<' !in CellText(data[k], fields[j])
  }

  lemma {:induction false} NoCharCount(s: string, c: char)
    requires c !in s
    ensures CountChar(s, c) == 0
  {
    if s != [] {
      NoCharCount(s[1..], c);
    }
  }

  /** A cell with plain text holds two tags, so the cells of a row hold two per field. */
  lemma {:induction false} CellsTagCount(properties: map<string, JsValue>, fields: seq<JsValue>)
    requires forall j :: 0 <= j < |fields| ==> '<' !in CellText(properties, fields[j])
    ensures CountChar(Cells(properties, fields), '<') == 2 * |fields|
  {
    if fields != [] {
      var init := fields[..|fields| - 1];
      var f := fields[|fields| - 1];
      assert forall j :: 0 <= j < |init| ==> init[j] == fields[j];
      CellsTagCount(properties, init);
      var v := CellText(properties, f);
      NoCharCount(v, '<');
      CountCharAppend("<td>", v, '<');
      CountCharAppend("<td>" + v, "</td>", '<');
      CountCharAppend(Cells(properties, init), Cell(properties, f), '<');
    }
  }

  lemma PlainValuesPrefix(fields: seq<JsValue>, data: seq<map<string, JsValue>>)
    requires data != [] && PlainValues(fields, data)
    ensures PlainValues(fields, data[..|data| - 1])
    ensures forall j :: 0 <= j < |fields| ==> '<' !in CellText(data[|data| - 1], fields[j])
  {
    var init := data[..|data| - 1];
    forall k, j | 0 <= k < |init| && 0 <= j < |fields|
      ensures '<' !in CellText(init[k], fields[j])
    {
      assert init[k] == data[k];
    }
  }

  lemma TagCounts()
    ensures CountChar("<tr>", '<') == 1 && CountChar("</tr>", '<') == 1
    ensures CountChar("<td>", '<') == 1 && CountChar("</td>", '<') == 1
  {
  }

  lemma EndsWith(a: string, b: string)
    ensures |a + b| >= |b| && (a + b)[|a + b| - |b|..] == b
  {
  }

  /** `n` blocks of `k`, counted one block at a time. */
  function Blocks(n: nat, k: nat): nat
  {
    if n == 0 then 0 else Blocks(n - 1, k) + k
  }

  lemma {:induction false} BlocksIsProduct(n: nat, k: nat)
    ensures Blocks(n, k) == n * k
  {
    if n > 0 {
      BlocksIsProduct(n - 1, k);
      assert (n - 1) * k + k == n * k;
    }
  }

  /** One row as written holds two tags per field and two row tags, the
      last of which opens a row. */
  lemma RowAsWrittenShape(properties: map<string, JsValue>, fields: seq<JsValue>)
    requires forall j :: 0 <= j < |fields| ==> '<' !in CellText(properties, fields[j])
    ensures CountChar(RowAsWritten(properties, fields), '<') == 2 * |fields| + 2
  {
    var cells := Cells(properties, fields);
    CellsTagCount(properties, fields);
    TagCounts();
    CountCharAppend("<tr>", cells, '<');
    CountCharAppend("<tr>" + cells, "<tr>", '<');
  }

  /** With plain values a table of `n` rows as written holds `2n` row
      tags besides its cell tags. */
  lemma TableAsWrittenTagCount(fields: seq<JsValue>, data: seq<map<string, JsValue>>)
    requires PlainValues(fields, data)
    ensures CountChar(TableAsWritten(fields, data), '<') == |data| * (2 * |fields| + 2)
  {
    TableAsWrittenTagCountBlocks(fields, data);
    BlocksIsProduct(|data|, 2 * |fields| + 2);
  }

  lemma {:induction false} TableAsWrittenTagCountBlocks(fields: seq<JsValue>, data: seq<map<string, JsValue>>)
    requires PlainValues(fields, data)
    ensures CountChar(TableAsWritten(fields, data), '<') == Blocks(|data|, 2 * |fields| + 2)
  {
    if data != [] {
      var init := data[..|data| - 1];
      PlainValuesPrefix(fields, data);
      TableAsWrittenTagCountBlocks(fields, init);
      RowAsWrittenShape(data[|data| - 1], fields);
      CountCharAppend(TableAsWritten(fields, init), RowAsWritten(data[|data| - 1], fields), '<');
    }
  }

  /** Every row as written ends with an opening `<tr>`, so a non-empty
      table ends by opening a row that nothing closes. */
  lemma TableAsWrittenEndsOpen(fields: seq<JsValue>, data: seq<map<string, JsValue>>)
    requires data != []
    ensures var t := TableAsWritten(fields, data); |t| >= 4 && t[|t| - 4..] == "<tr>"
  {
    var before := TableAsWritten(fields, data[..|data| - 1]);
    var cells := Cells(data[|data| - 1], fields);
    ConcatAssoc(before, "<tr>" + cells, "<tr>");
    EndsWith(before + ("<tr>" + cells), "<tr>");
  }

  /** The smallest witness: one item and no fields give two opening tags. */
  lemma SingleRowAsWritten(properties: map<string, JsValue>)
    ensures TableAsWritten([], [properties]) == "<tr><tr>"
  {
    assert [properties][..0] == [];
  }

  lemma ClosedRowShape(properties: map<string, JsValue>, fields: seq<JsValue>)
    requires forall j :: 0 <= j < |fields| ==> '<' !in CellText(properties, fields[j])
    ensures CountChar(ClosedRow(properties, fields), '<') == 2 * |fields| + 2
  {
    var cells := Cells(properties, fields);
    CellsTagCount(properties, fields);
    TagCounts();
    CountCharAppend("<tr>", cells, '<');
    CountCharAppend("<tr>" + cells, "</tr>", '<');
  }

  /** The intended table: with plain values it holds `2n` row tags, one
      opening and one closing per row. */
  lemma ClosedTableTagCount(fields: seq<JsValue>, data: seq<map<string, JsValue>>)
    requires PlainValues(fields, data)
    ensures CountChar(ClosedTable(fields, data), '<') == |data| * (2 * |fields| + 2)
  {
    ClosedTableTagCountBlocks(fields, data);
    BlocksIsProduct(|data|, 2 * |fields| + 2);
  }

  lemma {:induction false} ClosedTableTagCountBlocks(fields: seq<JsValue>, data: seq<map<string, JsValue>>)
    requires PlainValues(fields, data)
    ensures CountChar(ClosedTable(fields, data), '<') == Blocks(|data|, 2 * |fields| + 2)
  {
    if data != [] {
      var init := data[..|data| - 1];
      PlainValuesPrefix(fields, data);
      ClosedTableTagCountBlocks(fields, init);
      ClosedRowShape(data[|data| - 1], fields);
      CountCharAppend(ClosedTable(fields, init), ClosedRow(data[|data| - 1], fields), '<');
    }
  }

  /** A non-empty intended table ends by closing its last row. */
  lemma ClosedTableEndsClosed(fields: seq<JsValue>, data: seq<map<string, JsValue>>)
    requires data != []
    ensures var t := ClosedTable(fields, data); |t| >= 5 && t[|t| - 5..] == "</tr>"
  {
    var before := ClosedTable(fields, data[..|data| - 1]);
    var cells := Cells(data[|data| - 1], fields);
    ConcatAssoc(before, "<tr>" + cells, "</tr>");
    EndsWith(before + ("<tr>" + cells), "</tr>");
  }
}
