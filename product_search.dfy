/** The parameter handling of `ProductService.globalSearch` and the average rating
    every product listing carries. The database applies the filter, the ordering and
    the paging; here the filter is a predicate on product rows, the ordering is the key
    the service asks for, and the rows arrive already in that order. */
module ProductSearch {
  import opened Common
  import opened Text
  import Paging

  // ------------------------------------------------------------------------ sort

  datatype SortField = ByPrice | ByName
  datatype Direction = Asc | Desc
  datatype OrderBy = OrderBy(field: SortField, direction: Direction)

  const DefaultOrder := OrderBy(ByName, Asc)

  /** `sort` split on `_` into a field and a direction: only `price` and `name` are
      accepted, the direction is descending only for the exact word `desc`, and
      anything else (including no sort at all) orders by name ascending. */
  function ParseSort(sort: Option<string>): OrderBy
  {
    match sort
    case None => DefaultOrder
    case Some(s) =>
      if s == "" then DefaultOrder
      else
        var parts := Split(s, '_');
        var dir := if |parts| > 1 && parts[1] == "desc" then Desc else Asc;
        if parts[0] == "price" then OrderBy(ByPrice, dir)
        else if parts[0] == "name" then OrderBy(ByName, dir)
        else DefaultOrder
  }

  lemma {:induction false} SplitWithout(f: string, sep: char)
    requires sep !in f
    ensures Split(f, sep) == [f]
    decreases |f|
  {
    if f != [] {
      SplitWithout(f[1..], sep);
      assert [f[0]] + f[1..] == f;
    }
  }

  /** Splitting at the first separator. */
  lemma {:induction false} SplitAtFirst(f: string, sep: char, d: string)
    requires sep !in f
    ensures Split(f + [sep] + d, sep) == [f] + Split(d, sep)
    decreases |f|
  {
    if f == [] {
      assert f + [sep] + d == [sep] + d;
      assert ([sep] + d)[1..] == d;
    } else {
      assert (f + [sep] + d)[1..] == f[1..] + [sep] + d;
      SplitAtFirst(f[1..], sep, d);
      assert [f[0]] + f[1..] == f;
    }
  }

  /** `field_direction`: the field decides the key (price, name, or the default), and the
      first word after the separator decides the direction. */
  lemma SortOfFieldAndDirection(f: string, d: string)
    requires '_' !in f
    ensures var o := ParseSort(Some(f + "_" + d));
      && o.field == (if f == "price" then ByPrice else ByName)
      && (o.direction == Desc <==> (f == "price" || f == "name") && Split(d, '_')[0] == "desc")
  {
    SplitAtFirst(f, '_', d);
    assert f + "_" + d == f + ['_'] + d;
  }

  /** A bare field sorts ascending. */
  lemma SortOfFieldAlone(f: string)
    requires '_' !in f
    ensures ParseSort(Some(f)) == OrderBy(if f == "price" then ByPrice else ByName, Asc)
  {
    SplitWithout(f, '_');
  }

  // ------------------------------------------------------------ category formatting

  /** `word.charAt(0).toUpperCase() + word.slice(1).toLowerCase()`. */
  function Capitalize(w: string): string
  {
    if w == "" then "" else [ToAsciiUpper(w[0])] + LowerAll(w[1..])
  }

  function CapitalizeAll(ws: seq<string>): (r: seq<string>)
    ensures |r| == |ws|
    decreases |ws|
  {
    if ws == [] then [] else [Capitalize(ws[0])] + CapitalizeAll(ws[1..])
  }

  /** The `category` parameter as the category name it must equal: split on `_`, each word
      capitalized, joined with spaces. */
  function FormatCategory(c: string): string
  {
    Join(CapitalizeAll(Split(c, '_')), ' ')
  }

  /** An independent, character-by-character reading of the same rule: `_` becomes a
      space, a letter that starts a word is upper-cased, any other letter lower-cased. */
  function TitleCase(s: string, atStart: bool): (r: string)
    ensures |r| == |s|
    decreases |s|
  {
    if s == "" then ""
    else
      var head := if s[0] == '_' then ' ' else if atStart then ToAsciiUpper(s[0]) else ToAsciiLower(s[0]);
      [head] + TitleCase(s[1..], s[0] == '_')
  }

  /** Character `i` of the title-cased text. */
  function TitleChar(s: string, atStart: bool, i: nat): char
    requires i < |s|
  {
    if s[i] == '_' then ' '
    else if (if i == 0 then atStart else s[i - 1] == '_') then ToAsciiUpper(s[i])
    else ToAsciiLower(s[i])
  }

  lemma {:induction false} TitleCaseAt(s: string, atStart: bool, i: nat)
    requires i < |s|
    ensures TitleCase(s, atStart)[i] == TitleChar(s, atStart, i)
    decreases i
  {
    if i > 0 {
      TitleCaseAt(s[1..], s[0] == '_', i - 1);
      assert TitleCase(s, atStart)[i] == TitleCase(s[1..], s[0] == '_')[i - 1];
      if i > 1 {
        assert s[1..][i - 2] == s[i - 1];
      }
    }
  }

  /** What a join adds after its first piece. */
  function JoinRest(parts: seq<string>, sep: char): string
    decreases |parts|
  {
    if parts == [] then "" else [sep] + parts[0] + JoinRest(parts[1..], sep)
  }

  lemma {:induction false} JoinHeadRest(parts: seq<string>, sep: char)
    requires |parts| >= 1
    ensures Join(parts, sep) == parts[0] + JoinRest(parts[1..], sep)
    decreases |parts|
  {
    if |parts| > 1 {
      JoinHeadRest(parts[1..], sep);
      assert parts[1..][1..] == parts[2..];
    }
  }

  /** The formatted text after the first word of `s`. */
  function AfterFirstWord(s: string): string
  {
    JoinRest(CapitalizeAll(Split(s, '_'))[1..], ' ')
  }

  lemma {:induction false} TitleCaseByWords(s: string)
    ensures TitleCase(s, true) == Capitalize(Split(s, '_')[0]) + AfterFirstWord(s)
    ensures TitleCase(s, false) == LowerAll(Split(s, '_')[0]) + AfterFirstWord(s)
    decreases |s|
  {
    if s != "" {
      TitleCaseByWords(s[1..]);
      if s[0] == '_' {
        AtSeparator(s);
      } else {
        InsideWord(s);
      }
    }
  }

  /** A separator starts an empty first word; what follows is a space and the rest
      formatted as from the start of a word. */
  lemma AtSeparator(s: string)
    requires s != "" && s[0] == '_'
    requires TitleCase(s[1..], true) == Capitalize(Split(s[1..], '_')[0]) + AfterFirstWord(s[1..])
    ensures TitleCase(s, true) == Capitalize(Split(s, '_')[0]) + AfterFirstWord(s)
    ensures TitleCase(s, false) == LowerAll(Split(s, '_')[0]) + AfterFirstWord(s)
  {
    var ps := Split(s[1..], '_');
    SplitAtSeparator(s);
    AfterSeparator(s);
    JoinRestCons(CapitalizeAll(ps));
    AfterFirstWordOfParts(s[1..]);
    SpaceThenWord(AfterFirstWord(s), AfterFirstWord(s[1..]), TitleCase(s[1..], true),
      Capitalize(ps[0]), JoinRest(CapitalizeAll(ps[1..]), ' '));
    assert TitleCase(s, true) == [' '] + TitleCase(s[1..], true);
    assert TitleCase(s, false) == [' '] + TitleCase(s[1..], true);
  }

  lemma SplitAtSeparator(s: string)
    requires s != "" && s[0] == '_'
    ensures Split(s, '_') == [""] + Split(s[1..], '_')
  {
  }

  lemma SplitInsideWord(s: string)
    requires s != "" && s[0] != '_'
    ensures Split(s, '_') == [[s[0]] + Split(s[1..], '_')[0]] + Split(s[1..], '_')[1..]
  {
  }

  lemma CapitalizeAllCons(w: string, ws: seq<string>)
    ensures CapitalizeAll([w] + ws) == [Capitalize(w)] + CapitalizeAll(ws)
  {
    assert ([w] + ws)[1..] == ws;
  }

  /** The text after the first word is the remaining words, each capitalized and led by a space. */
  lemma AfterFirstWordOfParts(s: string)
    ensures AfterFirstWord(s) == JoinRest(CapitalizeAll(Split(s, '_')[1..]), ' ')
  {
    var ps := Split(s, '_');
    CapitalizeAllCons(ps[0], ps[1..]);
    assert [ps[0]] + ps[1..] == ps;
  }

  lemma AfterSeparator(s: string)
    requires s != "" && s[0] == '_'
    ensures AfterFirstWord(s) == JoinRest(CapitalizeAll(Split(s[1..], '_')), ' ')
  {
    SplitAtSeparator(s);
    assert Split(s, '_')[1..] == Split(s[1..], '_');
    AfterFirstWordOfParts(s);
  }

  lemma JoinRestCons(cs: seq<string>)
    requires cs != []
    ensures JoinRest(cs, ' ') == [' '] + cs[0] + JoinRest(cs[1..], ' ')
  {
  }

  lemma SpaceThenWord(a: string, b: string, t: string, c: string, j: string)
    requires a == [' '] + c + j && b == j && t == c + b
    ensures a == [' '] + t
  {
  }

  /** A letter extends the first word. */
  lemma InsideWord(s: string)
    requires s != "" && s[0] != '_'
    requires TitleCase(s[1..], false) == LowerAll(Split(s[1..], '_')[0]) + AfterFirstWord(s[1..])
    ensures TitleCase(s, true) == Capitalize(Split(s, '_')[0]) + AfterFirstWord(s)
    ensures TitleCase(s, false) == LowerAll(Split(s, '_')[0]) + AfterFirstWord(s)
  {
    var ps := Split(s[1..], '_');
    SplitInsideWord(s);
    SameAfterFirstWord(s);
    WordCase(s[0], ps[0]);
    assert TitleCase(s, true) == [ToAsciiUpper(s[0])] + TitleCase(s[1..], false);
    assert TitleCase(s, false) == [ToAsciiLower(s[0])] + TitleCase(s[1..], false);
    LetterThenWord(TitleCase(s, true), [ToAsciiUpper(s[0])], TitleCase(s[1..], false),
      LowerAll(ps[0]), AfterFirstWord(s[1..]));
    LetterThenWord(TitleCase(s, false), [ToAsciiLower(s[0])], TitleCase(s[1..], false),
      LowerAll(ps[0]), AfterFirstWord(s[1..]));
  }

  lemma SameAfterFirstWord(s: string)
    requires s != "" && s[0] != '_'
    ensures AfterFirstWord(s) == AfterFirstWord(s[1..])
  {
    SplitInsideWord(s);
    assert Split(s, '_')[1..] == Split(s[1..], '_')[1..];
    AfterFirstWordOfParts(s);
    AfterFirstWordOfParts(s[1..]);
  }

  lemma WordCase(c: char, v: string)
    ensures Capitalize([c] + v) == [ToAsciiUpper(c)] + LowerAll(v)
    ensures LowerAll([c] + v) == [ToAsciiLower(c)] + LowerAll(v)
  {
    assert ([c] + v)[1..] == v;
  }

  lemma LetterThenWord(r: string, h: string, t: string, l: string, a: string)
    requires r == h + t && t == l + a
    ensures r == (h + l) + a
  {
  }

  /** The split/capitalize/join formatter agrees with the character-wise rule. */
  lemma FormatCategoryIsTitleCase(c: string)
    ensures FormatCategory(c) == TitleCase(c, true)
  {
    TitleCaseByWords(c);
    JoinHeadRest(CapitalizeAll(Split(c, '_')), ' ');
  }

  /** The formatted name is as long as the parameter and has no `_` left. */
  lemma FormatCategoryShape(c: string)
    ensures |FormatCategory(c)| == |c| && '_' !in FormatCategory(c)
  {
    FormatCategoryIsTitleCase(c);
    var r := TitleCase(c, true);
    forall i | 0 <= i < |r| ensures r[i] != '_' {
      TitleCaseAt(c, true, i);
    }
  }

  /** Two words joined by `_` become the two words capitalized, joined by a space. */
  lemma FormatTwoWords(a: string, b: string)
    requires '_' !in a && '_' !in b
    ensures FormatCategory(a + "_" + b) == Capitalize(a) + " " + Capitalize(b)
  {
    assert a + "_" + b == a + ['_'] + b;
    SplitAtFirst(a, '_', b);
    SplitWithout(b, '_');
    var cs := [Capitalize(a), Capitalize(b)];
    assert CapitalizeAll([a, b]) == cs by {
      assert [a, b][1..] == [b];
      assert CapitalizeAll([b]) == [Capitalize(b)];
    }
    assert cs[1..] == [Capitalize(b)];
    assert Join(cs, ' ') == Capitalize(a) + [' '] + Capitalize(b);
  }

  /** `fresh_snails` names the category `Fresh Snails`. */
  lemma FreshSnails(c: string)
    requires c == "fresh_snails"
    ensures FormatCategory(c) == "Fresh Snails"
  {
    var a, b := "fresh", "snails";
    assert a + "_" + b == c;
    FormatTwoWords(a, b);
    CapitalizedWords();
  }

  lemma CapitalizedWords()
    ensures Capitalize("fresh") + " " + Capitalize("snails") == "Fresh Snails"
  {
    CapitalizedFresh();
    CapitalizedSnails();
  }

  lemma CapitalizedFresh()
    ensures Capitalize("fresh") == "Fresh"
  {
  }

  lemma CapitalizedSnails()
    ensures Capitalize("snails") == "Snails"
  {
  }

  // ------------------------------------------------------------------------ filter

  /** A product row with what the search reads from its relations. */
  datatype Row = Row(id: int, name: string, description: string, price: real, categoryName: string, ratings: seq<int>)

  datatype PriceBounds = PriceBounds(min: real, max: real)

  /** The `where` clause: each present part must hold. */
  datatype Filter = Filter(query: Option<string>, category: Option<string>, price: Option<PriceBounds>, minRating: Option<int>)

  datatype SearchParams = SearchParams(
    query: Option<string>, page: Option<int>, limit: Option<int>, sort: Option<string>,
    category: Option<string>, priceRange: Option<string>, rating: Option<int>)

  function NonEmpty(s: Option<string>): Option<string>
  {
    if s.Some? && s.value != "" then s else None
  }

  /** Both halves of `min-max` read as numbers. */
  predicate RangeParses(pr: string, toNumber: string -> Option<real>)
  {
    var parts := Split(pr, '-');
    toNumber(parts[0]).Some? && |parts| > 1 && toNumber(parts[1]).Some?
  }

  /** The `where` clause built from the parameters. `priceRange` is split on `-` and each
      half read by `Number` (given as `toNumber`, whose None stands for NaN; a missing
      second half is NaN as well). */
  function BuildFilter(params: SearchParams, toNumber: string -> Option<real>): (r: Result<Filter>)
    ensures r.Err? <==> NonEmpty(params.priceRange).Some? && !RangeParses(params.priceRange.value, toNumber)
    ensures r.Err? ==> r.error == Error(BadRequest, InvalidPriceRange)
    ensures r.Ok? ==>
      && (r.value.query.Some? <==> NonEmpty(params.query).Some?)
      && (r.value.query.Some? ==> r.value.query.value == LowerAll(params.query.value))
      && (r.value.category.Some? <==> NonEmpty(params.category).Some?)
      && (r.value.category.Some? ==> r.value.category.value == FormatCategory(params.category.value))
      && (r.value.minRating.Some? <==> params.rating.GetOr(0) > 0)
      && (r.value.minRating.Some? ==> r.value.minRating.value == params.rating.value)
      && (r.value.price.Some? <==> NonEmpty(params.priceRange).Some?)
    ensures r.Ok? && r.value.price.Some? ==>
      var parts := Split(params.priceRange.value, '-');
      && |parts| > 1
      && toNumber(parts[0]) == Some(r.value.price.value.min)
      && toNumber(parts[1]) == Some(r.value.price.value.max)
  {
    var query := match NonEmpty(params.query) case Some(q) => Some(LowerAll(q)) case None => None;
    var category := match NonEmpty(params.category) case Some(c) => Some(FormatCategory(c)) case None => None;
    var minRating := if params.rating.GetOr(0) > 0 then Some(params.rating.GetOr(0)) else None;
    match NonEmpty(params.priceRange)
    case None => Ok(Filter(query, category, None, minRating))
    case Some(pr) =>
      var parts := Split(pr, '-');
      var lo := toNumber(parts[0]);
      var hi := if |parts| > 1 then toNumber(parts[1]) else None;
      if lo.None? || hi.None? then Err(Error(BadRequest, InvalidPriceRange))
      else Ok(Filter(query, category, Some(PriceBounds(lo.value, hi.value)), minRating))
  }

  predicate HasRatingAtLeast(ratings: seq<int>, min: int)
  {
    exists k :: 0 <= k < |ratings| && ratings[k] >= min
  }

  /** A row satisfies the filter. */
  predicate Matches(row: Row, f: Filter)
  {
    && (f.query.Some? ==>
          Contains(row.name, f.query.value) || Contains(row.description, f.query.value)
          || Contains(row.categoryName, f.query.value))
    && (f.category.Some? ==> row.categoryName == f.category.value)
    && (f.price.Some? ==> f.price.value.min <= row.price <= f.price.value.max)
    && (f.minRating.Some? ==> HasRatingAtLeast(row.ratings, f.minRating.value))
  }

  /** The rows the filter keeps, in their order. */
  function Select(rows: seq<Row>, f: Filter): (r: seq<Row>)
    ensures |r| <= |rows|
    ensures forall i :: 0 <= i < |r| ==> Matches(r[i], f)
    ensures forall x :: x in r <==> x in rows && Matches(x, f)
    decreases |rows|
  {
    if rows == [] then []
    else
      var rest := Select(rows[1..], f);
      assert forall x :: x in rows <==> x == rows[0] || x in rows[1..];
      if Matches(rows[0], f) then [rows[0]] + rest else rest
  }

  /** Selecting from two stretches of rows selects from each and keeps them in that order;
      one row is kept iff it matches. So the kept rows keep their order and multiplicity. */
  lemma {:induction false} SelectAppend(a: seq<Row>, b: seq<Row>, f: Filter, x: Row)
    ensures Select(a + b, f) == Select(a, f) + Select(b, f)
    ensures Select([x], f) == if Matches(x, f) then [x] else []
    decreases |a|
  {
    if a == [] {
      assert a + b == b;
    } else {
      assert (a + b)[1..] == a[1..] + b;
      SelectAppend(a[1..], b, f, x);
    }
  }

  /** A filter with no parts keeps every row. */
  lemma {:induction false} EmptyFilterKeepsAll(rows: seq<Row>)
    ensures Select(rows, Filter(None, None, None, None)) == rows
    decreases |rows|
  {
    if rows != [] {
      EmptyFilterKeepsAll(rows[1..]);
    }
  }

  /** What the built filter keeps, in terms of the parameters: a positive rating keeps the
      rows that meet the other parts and have some review rated at least that much, and any
      other rating adds no condition; a price range keeps the rows priced between the two
      numbers read from it, both included. */
  lemma FilterMeaning(params: SearchParams, toNumber: string -> Option<real>, row: Row)
    requires BuildFilter(params, toNumber).Ok?
    ensures var f := BuildFilter(params, toNumber).value;
      && (params.rating.GetOr(0) > 0 ==>
            (Matches(row, f) <==> Matches(row, f.(minRating := None))
                                  && exists k :: 0 <= k < |row.ratings| && row.ratings[k] >= params.rating.value))
      && (params.rating.GetOr(0) <= 0 ==> (Matches(row, f) <==> Matches(row, f.(minRating := None))))
      && (NonEmpty(params.priceRange).Some? ==>
            var parts := Split(params.priceRange.value, '-');
            (Matches(row, f) <==> Matches(row, f.(price := None))
                                  && toNumber(parts[0]).value <= row.price <= toNumber(parts[1]).value))
  {
  }

  // ------------------------------------------------------------------------ order

  /** Names compared character by character, by code point. */
  predicate NameAtMost(a: string, b: string)
    decreases |a|
  {
    a == [] || (b != [] && (a[0] < b[0] || (a[0] == b[0] && NameAtMost(a[1..], b[1..]))))
  }

  /** `a` may come before `b` under the ordering. */
  predicate InOrder(a: Row, b: Row, o: OrderBy)
  {
    match o
    case OrderBy(ByPrice, Asc) => a.price <= b.price
    case OrderBy(ByPrice, Desc) => b.price <= a.price
    case OrderBy(ByName, Asc) => NameAtMost(a.name, b.name)
    case OrderBy(ByName, Desc) => NameAtMost(b.name, a.name)
  }

  predicate SortedBy(rows: seq<Row>, o: OrderBy)
  {
    forall i, j :: 0 <= i < j < |rows| ==> InOrder(rows[i], rows[j], o)
  }

  lemma SortedTail(rows: seq<Row>, o: OrderBy)
    requires rows != [] && SortedBy(rows, o)
    ensures SortedBy(rows[1..], o)
    ensures forall x :: x in rows[1..] ==> InOrder(rows[0], x, o)
  {
    var tail := rows[1..];
    forall i, j | 0 <= i < j < |tail| ensures InOrder(tail[i], tail[j], o) {
      assert tail[i] == rows[i + 1] && tail[j] == rows[j + 1];
    }
    forall x | x in tail ensures InOrder(rows[0], x, o) {
      var k :| 0 <= k < |tail| && tail[k] == x;
      assert rows[k + 1] == x;
    }
  }

  lemma SortedCons(x: Row, rest: seq<Row>, o: OrderBy)
    requires SortedBy(rest, o)
    requires forall j :: 0 <= j < |rest| ==> InOrder(x, rest[j], o)
    ensures SortedBy([x] + rest, o)
  {
    var r := [x] + rest;
    forall i, j | 0 <= i < j < |r| ensures InOrder(r[i], r[j], o) {
      if i == 0 {
        assert r[j] == rest[j - 1];
      } else {
        assert r[i] == rest[i - 1] && r[j] == rest[j - 1];
      }
    }
  }

  /** The filter keeps a sorted table sorted. */
  lemma {:induction false} SelectKeepsOrder(rows: seq<Row>, f: Filter, o: OrderBy)
    requires SortedBy(rows, o)
    ensures SortedBy(Select(rows, f), o)
    decreases |rows|
  {
    if rows != [] {
      SortedTail(rows, o);
      SelectKeepsOrder(rows[1..], f, o);
      var rest := Select(rows[1..], f);
      if Matches(rows[0], f) {
        assert forall j :: 0 <= j < |rest| ==> rest[j] in rows[1..];
        SortedCons(rows[0], rest, o);
      }
    }
  }

  // ------------------------------------------------------------------------ search

  /** The page of rows, each row's average rating beside it, and the paging figures. */
  datatype SearchResult = SearchResult(
    products: seq<Row>, averageRatings: seq<Option<real>>,
    totalCount: nat, currentPage: int, totalPages: nat, limit: int)

  const DefaultPage := 1
  const DefaultLimit := 12

  /** `globalSearch` over the product table as the database returns it in the requested
      order (`rows`, sorted by the parsed `sort`): the filter, the page of the filtered
      rows, their count and `Math.ceil(count / limit)`. */
  function GlobalSearch(rows: seq<Row>, params: SearchParams, toNumber: string -> Option<real>): (r: Result<SearchResult>)
    requires params.page.GetOr(DefaultPage) >= 1 && params.limit.GetOr(DefaultLimit) >= 1
    requires SortedBy(rows, ParseSort(params.sort))
    ensures r.Err? <==> BuildFilter(params, toNumber).Err?
    ensures r.Err? ==> r.error == Error(BadRequest, InvalidPriceRange)
    ensures r.Ok? ==>
      var f := BuildFilter(params, toNumber).value;
      var page, limit := params.page.GetOr(DefaultPage), params.limit.GetOr(DefaultLimit);
      && r.value.products == Paging.Page(Select(rows, f), page, limit)
      && r.value.totalCount == |Select(rows, f)|
      && r.value.totalPages == Paging.TotalPages(r.value.totalCount, limit)
      && r.value.currentPage == page && r.value.limit == limit
    ensures r.Ok? ==>
      var f := BuildFilter(params, toNumber).value;
      && (forall i :: 0 <= i < |r.value.products| ==> r.value.products[i] in rows && Matches(r.value.products[i], f))
      && SortedBy(r.value.products, ParseSort(params.sort))
      && |r.value.averageRatings| == |r.value.products|
      && (forall i :: 0 <= i < |r.value.products| ==> r.value.averageRatings[i] == AverageRating(r.value.products[i].ratings))
      && |r.value.products| <= r.value.limit
      && (r.value.products != [] <==> r.value.currentPage <= r.value.totalPages)
  {
    match BuildFilter(params, toNumber)
    case Err(e) => Err(e)
    case Ok(f) =>
      var page, limit := params.page.GetOr(DefaultPage), params.limit.GetOr(DefaultLimit);
      var hits := Select(rows, f);
      SelectKeepsOrder(rows, f, ParseSort(params.sort));
      Paging.PageNonEmptyIff(hits, page, limit);
      var shown := Paging.Page(hits, page, limit);
      assert SortedBy(shown, ParseSort(params.sort)) by {
        forall i, j | 0 <= i < j < |shown| ensures InOrder(shown[i], shown[j], ParseSort(params.sort)) {
          assert shown[i] == hits[Paging.Skip(page, limit) + i] && shown[j] == hits[Paging.Skip(page, limit) + j];
        }
      }
      Ok(SearchResult(shown, seq(|shown|, i requires 0 <= i < |shown| => AverageRating(shown[i].ratings)), |hits|, page, Paging.TotalPages(|hits|, limit), limit))
  }

  // ---------------------------------------------------------------- averageRating

  function Sum(xs: seq<int>): int
    decreases |xs|
  {
    if xs == [] then 0 else Sum(xs[..|xs| - 1]) + xs[|xs| - 1]
  }

  /** The mean of a product's review ratings, or none without reviews. */
  function AverageRating(ratings: seq<int>): (r: Option<real>)
    ensures r.None? <==> ratings == []
    ensures r.Some? ==> r.value * |ratings| as real == Sum(ratings) as real
  {
    if |ratings| > 0 then Some(Sum(ratings) as real / |ratings| as real) else None
  }

  lemma {:induction false} SumBounds(xs: seq<int>, lo: int, hi: int)
    requires forall i :: 0 <= i < |xs| ==> lo <= xs[i] <= hi
    ensures lo * |xs| <= Sum(xs) <= hi * |xs|
    decreases |xs|
  {
    if xs != [] {
      SumBounds(xs[..|xs| - 1], lo, hi);
      assert xs[|xs| - 1] == xs[|xs| - 1];
    }
  }

  /** The average lies within the range of the ratings: with star ratings from 1 to 5 it
      is between 1 and 5. */
  lemma AverageWithinBounds(ratings: seq<int>, lo: int, hi: int)
    requires ratings != [] && forall i :: 0 <= i < |ratings| ==> lo <= ratings[i] <= hi
    ensures lo as real <= AverageRating(ratings).value <= hi as real
  {
    SumBounds(ratings, lo, hi);
    var n := |ratings| as real;
    var a := AverageRating(ratings).value;
    assert a * n == Sum(ratings) as real;
    assert (lo as real) * n <= a * n <= (hi as real) * n;
  }
}
