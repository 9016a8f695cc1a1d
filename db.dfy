/**
 * The comma-list helpers that store an asset's tags and services in one
 * text column: `_join_csv` and `_split_csv`.
 */
module Db {
  import opened Wrappers
  import opened Text

  /** The stripped forms of the items, with those that strip to "" dropped, in order. */
  function CleanItems(items: seq<string>): (r: seq<string>)
    ensures |r| <= |items|
    ensures forall i :: 0 <= i < |r| ==> r[i] != "" && IsStripped(r[i])
  {
    if items == [] then []
    else
      var rest := CleanItems(items[1..]);
      StripIsStripped(items[0]);
      var x := Strip(items[0]);
      if x == "" then rest else [x] + rest
  }

  /** Cleaning an already clean list changes nothing. */
  lemma {:induction false} CleanItemsOfClean(items: seq<string>)
    requires forall i :: 0 <= i < |items| ==> items[i] != "" && IsStripped(items[i])
    ensures CleanItems(items) == items
  {
    if items != [] {
      StripOfStripped(items[0]);
      CleanItemsOfClean(items[1..]);
    }
  }

  /** Cleaning keeps order: it distributes over concatenation. */
  lemma {:induction false} CleanItemsConcat(a: seq<string>, b: seq<string>)
    ensures CleanItems(a + b) == CleanItems(a) + CleanItems(b)
  {
    if a != [] {
      var head := if Strip(a[0]) == "" then [] else [Strip(a[0])];
      assert CleanItems(a + b) == head + CleanItems(a[1..] + b) by {
        assert (a + b)[1..] == a[1..] + b && (a + b)[0] == a[0];
      }
      assert CleanItems(a) == head + CleanItems(a[1..]);
      CleanItemsConcat(a[1..], b);
    } else {
      assert a + b == b;
    }
  }

  /** One item is kept, stripped, exactly when its stripped form is not blank. */
  lemma CleanItemsSingle(x: string)
    ensures CleanItems([x]) == if Strip(x) == "" then [] else [Strip(x)]
  {
    assert [x][1..] == [];
  }

  /**
   * An item whose stripped form is not blank is kept, stripped, in its
   * place: after what the items before it leave and before what the items
   * after it leave.
   */
  lemma {:induction false} CleanItemsKeeps(items: seq<string>, i: nat)
    requires i < |items| && Strip(items[i]) != ""
    ensures CleanItems(items) == CleanItems(items[..i]) + [Strip(items[i])] + CleanItems(items[i + 1..])
  {
    var before, rest := items[..i], items[i..];
    assert rest[0] == items[i] && rest[1..] == items[i + 1..];
    assert items == before + rest;
    CleanItemsConcat(before, rest);
  }

  /** Every kept item is the stripped form of some input item. */
  lemma {:induction false} CleanItemsFrom(items: seq<string>)
    ensures forall x :: x in CleanItems(items) ==> exists i :: 0 <= i < |items| && x == Strip(items[i])
  {
    if items != [] {
      CleanItemsFrom(items[1..]);
      forall x | x in CleanItems(items[1..])
        ensures exists i :: 0 <= i < |items| && x == Strip(items[i])
      {
        var i :| 0 <= i < |items[1..]| && x == Strip(items[1..][i]);
        assert items[i + 1] == items[1..][i];
      }
    }
  }

  /** `_join_csv`: the clean items joined with `,`; "" when none is left. */
  function JoinCsv(items: seq<string>): (s: string)
    ensures CleanItems(items) == [] ==> s == ""
  {
    Join(CleanItems(items), ',')
  }

  /** `_split_csv`: `None`, empty and blank give []; otherwise the clean pieces between commas. */
  function SplitCsv(s: Option<string>): (r: seq<string>)
    ensures Strip(s.GetOr("")) == "" ==> r == []
    ensures Strip(s.GetOr("")) != "" ==> r == CleanItems(Split(Strip(s.GetOr("")), ','))
    ensures forall i :: 0 <= i < |r| ==> r[i] != "" && IsStripped(r[i]) && ',' !in r[i]
  {
    var t := Strip(s.GetOr(""));
    if t == "" then []
    else
      var r := CleanItems(Split(t, ','));
      CleanItemsNoComma(Split(t, ','));
      r
  }

  /** Cleaning cannot introduce a comma. */
  lemma {:induction false} CleanItemsNoComma(items: seq<string>)
    requires forall p :: p in items ==> ',' !in p
    ensures forall i :: 0 <= i < |CleanItems(items)| ==> ',' !in CleanItems(items)[i]
  {
    if items != [] {
      CleanItemsNoComma(items[1..]);
      StripPiece(items[0]);
    }
  }

  /** A padded two-item list splits into its two stripped items, in order. */
  lemma SplitCsvExample()
    ensures SplitCsv(Some("a, b")) == ["a", "b"]
  {
    ExamplePieces();
    CleanItemsConcat(["a"], [" b"]);
    CleanItemsSingle("a");
    CleanItemsSingle(" b");
    assert ["a", " b"] == ["a"] + [" b"];
  }

  /** The string of `SplitCsvExample` is already stripped, its comma pieces and their stripped forms. */
  lemma ExamplePieces()
    ensures Strip("a, b") == "a, b" && Split("a, b", ',') == ["a", " b"]
    ensures Strip("a") == "a" && Strip(" b") == "b"
  {
    var t := "a, b";
    assert IsStripped(t);
    StripOfStripped(t);
    assert t == "a" + [','] + " b";
    SplitAfterPiece("a", " b", ',');
    SplitWithoutSep(" b", ',');
    StripOfStripped("a");
    assert TrimStart(" b") == TrimStart(" b"[1..]);
    assert " b"[1..] == "b";
    assert TrimStart("b") == "b" && TrimEnd("b") == "b";
  }

  /** `None`, "" and an all-blank string split to nothing. */
  lemma SplitBlank(s: string)
    requires forall i :: 0 <= i < |s| ==> IsSpace(s[i])
    ensures SplitCsv(None) == [] && SplitCsv(Some(s)) == []
  {
    StripEmptyIffBlank(s);
    StripEmptyIffBlank("");
  }

  /** Round trip: when no item holds a comma, splitting the joined string gives the clean items back. */
  lemma JoinSplitRoundTrip(items: seq<string>)
    requires forall i :: 0 <= i < |items| ==> ',' !in items[i]
    ensures SplitCsv(Some(JoinCsv(items))) == CleanItems(items)
  {
    var c := CleanItems(items);
    CleanItemsNoComma(items);
    if c == [] {
      StripEmptyIffBlank("");
    } else {
      JoinedSplitsBack(c);
    }
  }

  /** A non-empty clean list without commas survives join, strip, split and clean unchanged. */
  lemma JoinedSplitsBack(c: seq<string>)
    requires c != []
    requires forall i :: 0 <= i < |c| ==> c[i] != "" && IsStripped(c[i]) && ',' !in c[i]
    ensures SplitCsv(Some(Join(c, ','))) == c
  {
    var joined := Join(c, ',');
    JoinedIsStripped(c);
    StripOfStripped(joined);
    JoinNonEmpty(c);
    SplitJoin(c, ',');
    CleanItemsOfClean(c);
  }

  /** Joining non-empty stripped pieces gives a stripped string. */
  lemma {:induction false} JoinedIsStripped(parts: seq<string>)
    requires forall i :: 0 <= i < |parts| ==> parts[i] != "" && IsStripped(parts[i])
    ensures IsStripped(Join(parts, ','))
  {
    if |parts| > 1 {
      JoinedIsStripped(parts[1..]);
      JoinNonEmpty(parts[1..]);
      var rest := Join(parts[1..], ',');
      var s := parts[0] + [','] + rest;
      assert s[0] == parts[0][0];
      assert s[|s| - 1] == rest[|rest| - 1];
    }
  }

  /** Joining non-empty pieces, at least one, gives a non-empty string. */
  lemma JoinNonEmpty(parts: seq<string>)
    requires |parts| >= 1 && forall i :: 0 <= i < |parts| ==> parts[i] != ""
    ensures Join(parts, ',') != ""
  {
  }

  /** Splitting what was joined from a split gives the same split: split is a fixed point of join-then-split. */
  lemma SplitJoinSplit(s: Option<string>)
    ensures SplitCsv(Some(JoinCsv(SplitCsv(s)))) == SplitCsv(s)
  {
    var xs := SplitCsv(s);
    JoinSplitRoundTrip(xs);
    CleanItemsOfClean(xs);
  }
}
