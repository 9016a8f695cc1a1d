/**
 * Import row normalisation: every decoded CSV row or JSON object becomes
 * an item with exactly the ten required keys, blank asset and title get
 * defaults, and metric codes are stripped and upper-cased.
 *
 * The decoding itself is done by library code (`str.splitlines`,
 * `csv.Sniffer`, `csv.DictReader`, `json.loads`); its results are the
 * inputs here. A decoded row or object is a map from field name to the
 * `str()` form of its value, `None` standing for a missing cell or JSON `null`.
 */
module Parser {
  import opened Wrappers
  import opened Text
  import Cvss

  type Row = map<string, Option<string>>
  type Item = map<string, string>

  /** A decoded JSON value, as far as the importer looks at it. */
  datatype Json =
    | Null
      /** A string, number or boolean, by its `str()` form. */
    | Scalar(text: string)
    | List(items: seq<Json>)
    | Object(fields: Row)

  const Required: seq<string> := ["asset", "title", "AV", "AC", "PR", "UI", "S", "C", "I", "A"]

  /** The metric keys whose codes are upper-cased. */
  const MetricKeys: seq<string> := ["AV", "AC", "PR", "UI", "S", "C", "I", "A"]

  const JsonShapeError := "JSON must be a list of objects."

  /** The cell of key `k`, or `None` when the row lacks the key. */
  function Get(row: Row, k: string): Option<string> {
    if k in row then row[k] else None
  }

  /** The cleaned cell: a missing value becomes "", anything else its stripped string form. */
  function Clean(v: Option<string>): (r: string)
    ensures IsStripped(r)
    ensures v.None? ==> r == ""
    ensures v.Some? ==> r == Strip(v.value)
    ensures v.Some? && IsStripped(v.value) ==> r == v.value
  {
    StripIsStripped(v.GetOr(""));
    match v
    case None => Strip("")
    case Some(s) => if IsStripped(s) then (StripOfStripped(s); Strip(s)) else Strip(s)
  }

  /** The value of key `k` in the finished item. */
  function FieldValue(row: Row, k: string): string {
    if k == "asset" then OrElse(Clean(Get(row, k)), "Unassigned")
    else if k == "title" then OrElse(Clean(Get(row, k)), "Untitled Finding")
    else Upper(Clean(Get(row, k)))
  }

  /** The item a row normalises to. */
  function ItemOf(row: Row): Item {
    map k | k in Required :: FieldValue(row, k)
  }

  /** The metric keys are the validator's `METRIC_FIELDS`, the last eight of the required keys. */
  lemma MetricKeysAreFields()
    ensures MetricKeys == Cvss.MetricFields
    ensures Required == ["asset", "title"] + MetricKeys
  {
  }

  /**
   * An item has exactly the ten required keys; asset and title are the
   * stripped cell, or their default when that is blank; each metric code is the
   * validator's normalisation of the cell, so it is stripped and upper-case.
   */
  lemma ItemShape(row: Row)
    ensures forall k :: k in ItemOf(row) <==> k in Required
    ensures "asset" in ItemOf(row) && ItemOf(row)["asset"] != "" && IsStripped(ItemOf(row)["asset"])
    ensures "title" in ItemOf(row) && ItemOf(row)["title"] != "" && IsStripped(ItemOf(row)["title"])
    ensures Strip(Get(row, "asset").GetOr("")) != "" ==> ItemOf(row)["asset"] == Strip(Get(row, "asset").GetOr(""))
    ensures Strip(Get(row, "asset").GetOr("")) == "" ==> ItemOf(row)["asset"] == "Unassigned"
    ensures Strip(Get(row, "title").GetOr("")) != "" ==> ItemOf(row)["title"] == Strip(Get(row, "title").GetOr(""))
    ensures Strip(Get(row, "title").GetOr("")) == "" ==> ItemOf(row)["title"] == "Untitled Finding"
    ensures forall k :: k in MetricKeys ==> k in ItemOf(row) && ItemOf(row)[k] == Cvss.Norm(Get(row, k))
    ensures forall k :: k in MetricKeys ==> k in ItemOf(row) && IsStripped(ItemOf(row)[k]) && Upper(ItemOf(row)[k]) == ItemOf(row)[k]
  {
    ItemDefaults(row);
    forall k | k in MetricKeys
      ensures k in ItemOf(row) && ItemOf(row)[k] == Cvss.Norm(Get(row, k))
      ensures IsStripped(ItemOf(row)[k]) && Upper(ItemOf(row)[k]) == ItemOf(row)[k]
    {
      ItemMetric(row, k);
    }
  }

  /**
   * Asset and title are the stripped cell when that is not blank, and their
   * defaults otherwise; either way never blank and free of surrounding
   * whitespace.
   */
  lemma ItemDefaults(row: Row)
    ensures "asset" in ItemOf(row) && ItemOf(row)["asset"] != "" && IsStripped(ItemOf(row)["asset"])
    ensures "title" in ItemOf(row) && ItemOf(row)["title"] != "" && IsStripped(ItemOf(row)["title"])
    ensures Strip(Get(row, "asset").GetOr("")) != "" ==> ItemOf(row)["asset"] == Strip(Get(row, "asset").GetOr(""))
    ensures Strip(Get(row, "asset").GetOr("")) == "" ==> ItemOf(row)["asset"] == "Unassigned"
    ensures Strip(Get(row, "title").GetOr("")) != "" ==> ItemOf(row)["title"] == Strip(Get(row, "title").GetOr(""))
    ensures Strip(Get(row, "title").GetOr("")) == "" ==> ItemOf(row)["title"] == "Untitled Finding"
  {
    assert Required[0] == "asset" && Required[1] == "title";
    assert Strip("") == "";
    assert IsStripped("Unassigned") && IsStripped("Untitled Finding");
    OrElseStripped(Clean(Get(row, "asset")), "Unassigned");
    OrElseStripped(Clean(Get(row, "title")), "Untitled Finding");
  }

  /** A metric code is the validator's normalisation of its cell: stripped and upper-case. */
  lemma ItemMetric(row: Row, k: string)
    requires k in MetricKeys
    ensures k in ItemOf(row) && ItemOf(row)[k] == Cvss.Norm(Get(row, k))
    ensures IsStripped(ItemOf(row)[k]) && Upper(ItemOf(row)[k]) == ItemOf(row)[k]
  {
    RequiredKinds(k);
    var s := Get(row, k).GetOr("");
    assert FieldValue(row, k) == Upper(Clean(Get(row, k)));
    NormalizeIsStripped(s);
    UpperIdempotent(Strip(s));
  }

  /** A cell that is missing from the row reads as "": a required key absent from the source is still present. */
  lemma MissingCellIsBlank(row: Row, k: string)
    requires k in MetricKeys && k !in row
    ensures k in ItemOf(row) && ItemOf(row)[k] == ""
  {
    assert k in Required && k != "asset" && k != "title";
  }

  /** The first step of normalisation: every required key with its cleaned cell. */
  method CleanRequired(row: Row) returns (item: Item)
    ensures forall k :: k in item <==> k in Required
    ensures forall k :: k in item ==> item[k] == Clean(Get(row, k))
  {
    item := map[];
    for i := 0 to |Required|
      invariant forall k :: k in item <==> k in Required[..i]
      invariant forall k :: k in item ==> item[k] == Clean(Get(row, k))
    {
      assert forall k :: k in Required[..i + 1] <==> k in Required[..i] || k == Required[i];
      item := item[Required[i] := Clean(Get(row, Required[i]))];
    }
    assert Required[..|Required|] == Required;
  }

  /** The last step of normalisation: each metric key's value is upper-cased in place. */
  method UpperCodes(before: Item) returns (item: Item)
    requires forall k :: k in MetricKeys ==> k in before
    ensures forall k :: k in item <==> k in before
    ensures forall k :: k in item ==> item[k] == (if k in MetricKeys then Upper(before[k]) else before[k])
  {
    item := before;
    for j := 0 to |MetricKeys|
      invariant forall k :: k in item <==> k in before
      invariant forall k :: k in item ==> item[k] == (if k in MetricKeys[..j] then Upper(before[k]) else before[k])
    {
      var k := MetricKeys[j];
      assert forall x :: x in MetricKeys[..j + 1] <==> x in MetricKeys[..j] || x == k;
      assert k !in MetricKeys[..j] by {
        MetricKeysDistinct();
      }
      item := item[k := Upper(item[k])];
    }
    assert MetricKeys[..|MetricKeys|] == MetricKeys;
  }

  /** No metric key is listed twice. */
  lemma MetricKeysDistinct()
    ensures forall a, b :: 0 <= a < b < |MetricKeys| ==> MetricKeys[a] != MetricKeys[b]
  {
  }

  /** Key `k` of `before` after the defaults. */
  function DefaultedField(before: Item, k: string): string
    requires k in before
  {
    if k == "asset" then OrElse(before[k], "Unassigned")
    else if k == "title" then OrElse(before[k], "Untitled Finding")
    else before[k]
  }

  /** The middle step of normalisation: a blank asset or title is replaced by its default. */
  method ApplyDefaults(before: Item) returns (item: Item)
    requires "asset" in before && "title" in before
    ensures forall k :: k in item <==> k in before
    ensures forall k :: k in item ==> item[k] == DefaultedField(before, k)
  {
    item := before;
    if item["asset"] == "" {
      item := item["asset" := "Unassigned"];
    }
    if item["title"] == "" {
      item := item["title" := "Untitled Finding"];
    }
  }

  /** The loop body shared by both parsers: comprehension, defaults, upper-casing. */
  method NormalizeRow(row: Row) returns (item: Item)
    ensures item == ItemOf(row)
  {
    var cleaned := CleanRequired(row);
    RequiredKinds("asset");
    RequiredKinds("title");
    var staged := ApplyDefaults(cleaned);
    MetricKeysAreFields();
    item := UpperCodes(staged);
    forall k | k in item ensures item[k] == FieldValue(row, k) {
      RequiredKinds(k);
    }
    ItemOfCharacterised(row, item);
  }

  /** `ItemOf(row)` is the only item with the required keys and their field values. */
  lemma ItemOfCharacterised(row: Row, item: Item)
    requires forall k :: k in item <==> k in Required
    requires forall k :: k in item ==> item[k] == FieldValue(row, k)
    ensures item == ItemOf(row)
  {
    var want := ItemOf(row);
    assert item.Keys == want.Keys;
  }

  /** A required key is the asset, the title or a metric key, and only one of them. */
  lemma RequiredKinds(k: string)
    ensures k in Required <==> k == "asset" || k == "title" || k in MetricKeys
    ensures k in MetricKeys ==> k != "asset" && k != "title"
  {
  }

  /** The items of a sequence of rows, one per row, in order. */
  function ItemsOf(rows: seq<Row>): (r: seq<Item>)
    ensures |r| == |rows|
    ensures forall i :: 0 <= i < |rows| ==> r[i] == ItemOf(rows[i])
  {
    if rows == [] then [] else ItemsOf(rows[..|rows| - 1]) + [ItemOf(rows[|rows| - 1])]
  }

  /** The loop over the reader: one item per row, appended in order. */
  method NormalizeRows(rows: seq<Row>) returns (items: seq<Item>)
    ensures items == ItemsOf(rows)
  {
    items := [];
    for i := 0 to |rows|
      invariant items == ItemsOf(rows[..i])
    {
      var item := NormalizeRow(rows[i]);
      assert rows[..i + 1][..i] == rows[..i];
      items := items + [item];
    }
    assert rows[..|rows|] == rows;
  }

  // ---------------------------------------------------------------------
  // CSV
  // ---------------------------------------------------------------------

  /** The delimiter rule when the sniffer gives up: `;` when the header has at least as many `;` as `,`. */
  function FallbackDelimiter(header: string): (d: char)
    ensures d == ';' || d == ','
  {
    if ';' in header && Count(header, ';') >= Count(header, ',') then ';' else ','
  }

  /** The fallback picks `;` exactly when the header has a `;` and no more `,` than `;`. */
  lemma FallbackDelimiterIff(header: string)
    ensures FallbackDelimiter(header) == ';' <==> Count(header, ';') > 0 && Count(header, ';') >= Count(header, ',')
    ensures ';' !in header ==> FallbackDelimiter(header) == ','
    ensures ';' in header && ',' !in header ==> FallbackDelimiter(header) == ';'
  {
  }

  /**
   * The delimiter: the sniffed one (an empty sniffed delimiter falls back to
   * `,`), or the header rule when the sniffer fails (`None`).
   */
  function Delimiter(lines: seq<string>, sniffed: Option<string>): (d: string)
    requires lines != []
    ensures d != ""
    ensures sniffed.None? ==> d == [FallbackDelimiter(lines[0])]
    ensures sniffed.Some? && sniffed.value != "" ==> d == sniffed.value
    ensures sniffed == Some("") ==> d == ","
  {
    match sniffed
    case Some(s) => if s == "" then "," else s
    case None => [FallbackDelimiter(lines[0])]
  }

  /** The sniffer's sample: the first five lines joined with newlines. */
  function Sample(lines: seq<string>): string {
    Join(if |lines| <= 5 then lines else lines[..5], '\n')
  }

  /** Lines as `splitlines` gives them hold no newline, so the sample splits back into the first five (or fewer) lines. */
  lemma SampleLines(lines: seq<string>)
    requires lines != [] && forall i :: 0 <= i < |lines| ==> '\n' !in lines[i]
    ensures Split(Sample(lines), '\n') == if |lines| <= 5 then lines else lines[..5]
  {
    var first := if |lines| <= 5 then lines else lines[..5];
    assert forall p :: p in first ==> p in lines;
    SplitJoin(first, '\n');
  }

  /**
   * `parse_csv_text` over the lines of the text. `sniff` stands for
   * `csv.Sniffer().sniff` on the sample (`None` when it raises) and
   * `read` for `csv.DictReader` with the chosen delimiter.
   */
  method ParseCsvText(lines: seq<string>, sniff: string -> Option<string>, read: (seq<string>, string) -> seq<Row>)
    returns (items: seq<Item>)
    ensures lines == [] ==> items == []
    ensures lines != [] ==> items == ItemsOf(read(lines, Delimiter(lines, sniff(Sample(lines)))))
  {
    if lines == [] {
      return [];
    }
    var delimiter := ",";
    var sample := Sample(lines);
    var sniffed := sniff(sample);
    if sniffed.Some? {
      delimiter := if sniffed.value == "" then "," else sniffed.value;
    } else {
      var header := lines[0];
      if ';' in header && Count(header, ';') >= Count(header, ',') {
        delimiter := ";";
      }
    }
    items := NormalizeRows(read(lines, delimiter));
  }

  // ---------------------------------------------------------------------
  // JSON
  // ---------------------------------------------------------------------

  /** The objects among `xs`, as rows, in order; other elements are skipped. */
  function ObjectRows(xs: seq<Json>): (r: seq<Row>)
    ensures |r| <= |xs|
    ensures forall row :: row in r <==> Object(row) in xs
  {
    if xs == [] then []
    else
      var rest := ObjectRows(xs[..|xs| - 1]);
      var last := xs[|xs| - 1];
      assert forall x :: x in xs <==> x in xs[..|xs| - 1] || x == last;
      if last.Object? then rest + [last.fields] else rest
  }

  /** Skipping keeps order: the objects of a concatenation are the objects of each part. */
  lemma {:induction false} ObjectRowsConcat(a: seq<Json>, b: seq<Json>)
    ensures ObjectRows(a + b) == ObjectRows(a) + ObjectRows(b)
  {
    if b == [] {
      assert a + b == a;
    } else {
      var init, last := b[..|b| - 1], b[|b| - 1];
      ObjectRowsConcat(a, init);
      assert (a + b)[..|a + b| - 1] == a + init && (a + b)[|a + b| - 1] == last;
      var tail := if last.Object? then [last.fields] else [];
      assert ObjectRows(a + b) == ObjectRows(a + init) + tail;
      assert ObjectRows(b) == ObjectRows(init) + tail;
    }
  }

  /** A list of objects only yields one item per element. */
  lemma {:induction false} ObjectRowsAllObjects(xs: seq<Json>)
    requires forall i :: 0 <= i < |xs| ==> xs[i].Object?
    ensures |ObjectRows(xs)| == |xs|
    ensures forall i :: 0 <= i < |xs| ==> ObjectRows(xs)[i] == xs[i].fields
  {
    if xs != [] {
      ObjectRowsAllObjects(xs[..|xs| - 1]);
    }
  }

  /** One more element adds the item of its fields when it is an object, and nothing otherwise. */
  lemma ObjectItemsStep(xs: seq<Json>, i: nat)
    requires i < |xs|
    ensures ItemsOf(ObjectRows(xs[..i + 1])) == ItemsOf(ObjectRows(xs[..i])) + (if xs[i].Object? then [ItemOf(xs[i].fields)] else [])
  {
    assert xs[..i + 1][..i] == xs[..i] && xs[..i + 1][i] == xs[i];
    if xs[i].Object? {
      var rows := ObjectRows(xs[..i]);
      assert ObjectRows(xs[..i + 1]) == rows + [xs[i].fields];
      assert (rows + [xs[i].fields])[..|rows|] == rows;
    }
  }

  /**
   * `parse_json_text` on the decoded value: anything but a list is an error;
   * in a list, non-objects are skipped and each object yields one item, in order.
   */
  method ParseJsonText(data: Json) returns (r: Result<seq<Item>, string>)
    ensures r.Failure? <==> !data.List?
    ensures r.Failure? ==> r.error == JsonShapeError
    ensures r.Success? ==> r.value == ItemsOf(ObjectRows(data.items))
  {
    if !data.List? {
      return Failure(JsonShapeError);
    }
    var xs := data.items;
    var items: seq<Item> := [];
    for i := 0 to |xs|
      invariant items == ItemsOf(ObjectRows(xs[..i]))
    {
      ObjectItemsStep(xs, i);
      if xs[i].Object? {
        var item := NormalizeRow(xs[i].fields);
        items := items + [item];
      }
    }
    assert xs[..|xs|] == xs;
    r := Success(items);
  }
}
