/** The keyword routes: `POST /keyword/add` inserts keywords in bulk, `POST /keywords` searches
    them a page at a time, and `POST /item/keywords/:item_id` links keywords to an item. */
module Keywords {
  import opened JsText
  import opened JsNumbers
  import opened JsValues
  import opened Http
  import opened Sql

  /** `delete v[key]` on a value that is not `null`: an object loses the property, anything
      else is left as it is. */
  function Delete(v: Json, key: string): (r: Json)
    ensures v.JObject? ==> r.JObject? && forall i :: 0 <= i < |r.members| ==> r.members[i].0 != key
    ensures forall k :: k != key ==> Get(r, k) == Get(v, k)
  {
    if v.JObject? then JObject(Without(v.members, key)) else v
  }

  const AddMessage := "Invalid data format or empty data"

  /** The message of the `TypeError` a body that is not an array raises at `insertData.map`. */
  const NotArrayMessage := "insertData.map is not a function"

  /** The message of the `TypeError` `delete item[...]` raises on a `null` item. */
  const DeleteNullMessage := "Cannot convert undefined or null to object"

  /** `[item.keyword_name]` for each item, flattened: one parameter per item, `undefined` when
      the item has no name. */
  function KeywordNames(items: seq<Json>): (names: seq<Option<Json>>)
    ensures |names| == |items| && forall i :: 0 <= i < |items| ==> names[i] == Get(items[i], "keyword_name")
  {
    seq(|items|, i requires 0 <= i < |items| => Get(items[i], "keyword_name"))
  }

  const AddTable := "INSERT INTO fs_keywords "
  const AddColumns := "(keyword_name) VALUES "
  const AddHead := AddTable + AddColumns

  /** The bulk insert: one `(?)` row per item, joined with `, `, and the names in item order. */
  function AddQuery(items: seq<Json>): Query
  {
    Query(AddHead + Join(seq(|items|, _ => "(?)"), ", "), KeywordNames(items))
  }

  lemma AddTableMarks()
    ensures Marks(AddTable) == 0
  {
    NoMarks(AddTable);
  }

  lemma AddColumnsMarks()
    ensures Marks(AddColumns) == 0
  {
    NoMarks(AddColumns);
  }

  lemma AddHeadMarks()
    ensures Marks(AddHead) == 0
  {
    AddTableMarks();
    AddColumnsMarks();
    MarksOfConcat(AddTable, AddColumns);
  }

  lemma {:induction false} MarksOfRows(n: nat)
    ensures MarksIn(seq(n, _ => "(?)")) == n
  {
    if n > 0 {
      assert seq(n, _ => "(?)")[1..] == seq(n - 1, _ => "(?)");
      MarksOfRows(n - 1);
      RowMark();
    }
  }

  lemma RowMark()
    ensures Marks("(?)") == 1
  {
    assert "(?)"[1..][1..][1..] == [];
  }

  /** The bulk insert has one row, one `?` and one parameter per item. */
  lemma AddShape(items: seq<Json>)
    requires items != []
    ensures var q := AddQuery(items);
            Marks(q.sql) == |q.params| == |items|
  {
    var rows := seq(|items|, _ => "(?)");
    AddHeadMarks();
    assert Marks(Join(rows, ", ")) == |items| by {
      MarksOfCommaJoin(rows);
      MarksOfRows(|items|);
    }
    MarksOfConcat(AddHead, Join(rows, ", "));
  }

  /** The add route up to its query. `map` runs before the array check: a body that is not an
      array throws there, and so does a `null` item at its `delete`; an empty array is a 400.
      Removing `keyword_id` from each item changes nothing the query reads. */
  method AddKeywords(res: Response, body: Json) returns (run: Option<Query>)
    requires res.Untouched()
    modifies res
    ensures !body.JArray? ==>
              run == None && res.Shows(Reply(500, map[], ErrorPage(NotArrayMessage)))
    ensures body.JArray? && JNull in body.items ==>
              run == None && res.Shows(Reply(500, map[], ErrorPage(DeleteNullMessage)))
    ensures body.JArray? && JNull !in body.items && body.items == [] ==>
              run == None && res.Shows(Reply(400, map[], JsonBody(ErrorJson(AddMessage))))
    ensures body.JArray? && JNull !in body.items && body.items != [] ==>
              run == Some(AddQuery(body.items)) && res.Untouched()
  {
    if !body.JArray? {
      res.Fail(NotArrayMessage);
      return None;
    }
    var items := body.items;
    var insertData: seq<Json> := [];
    for i := 0 to |items|
      invariant |insertData| == i && JNull !in items[..i]
      invariant forall k :: 0 <= k < i ==> insertData[k] == Delete(items[k], "keyword_id")
    {
      if items[i].JNull? {
        res.Fail(DeleteNullMessage);
        return None;
      }
      insertData := insertData + [Delete(items[i], "keyword_id")];
    }
    assert items[..|items|] == items;
    if |insertData| == 0 {
      res.Status(400);
      res.Send(JsonBody(ErrorJson(AddMessage)));
      return None;
    }
    assert KeywordNames(insertData) == KeywordNames(items);
    run := Some(AddQuery(insertData));
  }

  const SearchBase := "SELECT * FROM fs_keywords"
  const FilterText := " WHERE keyword_name LIKE "
  const SearchFilter := FilterText + "?"
  const SearchLimit := " LIMIT " + "?" + ", " + "?"

  /** `v.length` on a value that is not `null`: strings and arrays have one, an object may carry
      a member of that name, other values have none. */
  function LengthOf(v: Json): Option<Json>
  {
    match v
    case JString(s) => Some(JNumber(|s|))
    case JArray(items) => Some(JNumber(|items|))
    case JObject(_) => Get(v, "length")
    case _ => None
  }

  /** `v > 0`, the value converted to a number first. An object or an array is converted
      through `String`, and the comparison throws where that does. */
  function Positive(v: Option<Json>): (r: Completion<bool>)
    ensures r.Throw? ==> r.message == ConvertMessage
    ensures v.Some? && v.value.JObject? ==> (r.Throw? <==> Get(v.value, "toString").Some?)
  {
    match v
    case None => Normal(false)
    case Some(JNull) => Normal(false)
    case Some(JBool(b)) => Normal(b)
    case Some(JNumber(n)) => Normal(n > 0)
    case Some(JString(s)) => Normal(NumberOf(s).Some? && NumberOf(s).value > 0)
    case Some(_) =>
      match ToString(v.value)
      case Throw(m) => Throw(m)
      case Normal(t) => Normal(NumberOf(t).Some? && NumberOf(t).value > 0)
  }

  /** `req.body.keyword_name || ""`. */
  function SearchString(body: Json): Json
  {
    var v := Get(body, "keyword_name");
    if Truthy(v) then v.value else JString("")
  }

  /** The `LIKE` pattern of a search, when the search string has a positive length; the length
      test and the template literal throw where their conversions do. */
  function Pattern(body: Json): (p: Completion<Option<string>>)
    ensures p.Throw? ==> p.message == ConvertMessage
    ensures p.Normal? && p.value.Some? ==>
              |p.value.value| >= 2 && p.value.value[0] == '%' && p.value.value[|p.value.value| - 1] == '%'
  {
    var s := SearchString(body);
    match Positive(LengthOf(s))
    case Throw(m) => Throw(m)
    case Normal(positive) =>
      if !positive then Normal(None)
      else
        match ToString(s)
        case Throw(m) => Throw(m)
        case Normal(t) => Normal(Some("%" + t + "%"))
  }

  /** `parseInt(v) || fallback`: `NaN` and 0 give way to the fallback; a value that cannot be
      made a string throws. */
  function IntOr(v: Option<Json>, fallback: int): (n: Completion<int>)
    requires fallback != 0
    ensures n.Normal? ==> n.value != 0
    ensures n.Throw? <==> ToStringOf(v).Throw?
    ensures n.Throw? ==> n.message == ConvertMessage
  {
    match ToStringOf(v)
    case Throw(m) => Throw(m)
    case Normal(t) =>
      var p := ParseInt(t, false);
      Normal(if p.None? || p.value == 0 then fallback else p.value)
  }

  /** The page asked for, 1 by default. */
  function Page(body: Json): Completion<int>
  {
    IntOr(Get(body, "page"), 1)
  }

  /** The page size asked for, 10 by default. */
  function PageSize(body: Json): Completion<int>
  {
    IntOr(Get(body, "pageSize"), 10)
  }

  lemma BaseMarks()
    ensures Marks(SearchBase) == 0
  {
    NoMarks(SearchBase);
  }

  lemma FilterTextMarks()
    ensures Marks(FilterText) == 0
  {
    NoMarks(FilterText);
  }

  lemma FilterMark()
    ensures Marks(SearchFilter) == 1
  {
    FilterTextMarks();
    MarksOfConcat(FilterText, "?");
  }

  lemma LimitTextMarks()
    ensures Marks(" LIMIT ") == 0 && Marks(", ") == 0
  {
    NoMarks(" LIMIT ");
    NoMarks(", ");
  }

  lemma LimitMarks()
    ensures Marks(SearchLimit) == 2
  {
    LimitTextMarks();
    MarksOfConcat(" LIMIT ", "?");
    MarksOfConcat(" LIMIT " + "?", ", ");
    MarksOfConcat(" LIMIT " + "?" + ", ", "?");
  }

  /** The search's text before its limit: the filter when there is a pattern. */
  function FilterSql(pattern: Option<string>): string
  {
    SearchBase + (if pattern.Some? then SearchFilter else "")
  }

  /** The search's parameters before the limit's: the pattern, if any. */
  function FilterParams(pattern: Option<string>): seq<Option<Json>>
  {
    if pattern.Some? then [Some(JString(pattern.value))] else []
  }

  /** The search route's query: the filter and its pattern when there is a search string, then
      the limit with the offset of the page and the page size; or the error a conversion throws
      on the way. */
  function SearchSpec(body: Json): Completion<Query>
  {
    match Pattern(body)
    case Throw(m) => Throw(m)
    case Normal(pattern) =>
      match Page(body)
      case Throw(m) => Throw(m)
      case Normal(page) =>
        match PageSize(body)
        case Throw(m) => Throw(m)
        case Normal(size) =>
          Normal(Query(FilterSql(pattern) + SearchLimit,
                       FilterParams(pattern) + [Some(JNumber((page - 1) * size)), Some(JNumber(size))]))
  }

  /** The search has as many `?` as parameters, with or without its filter. */
  lemma SearchMarks(body: Json)
    requires SearchSpec(body).Normal?
    ensures Marks(SearchSpec(body).value.sql) == |SearchSpec(body).value.params|
  {
    SearchTextMarks(Pattern(body).value.Some?);
  }

  lemma SearchTextMarks(filtered: bool)
    ensures Marks(SearchBase + (if filtered then SearchFilter else "") + SearchLimit) == if filtered then 3 else 2
  {
    if filtered {
      FilteredMarks();
    } else {
      assert SearchBase + "" == SearchBase;
      UnfilteredMarks();
    }
  }

  lemma FilteredMarks()
    ensures Marks(SearchBase + SearchFilter + SearchLimit) == 3
  {
    var a := SearchBase;
    var b := SearchFilter;
    var c := SearchLimit;
    BaseMarks();
    FilterMark();
    LimitMarks();
    MarksOfConcat3(a, b, c);
  }

  lemma UnfilteredMarks()
    ensures Marks(SearchBase + SearchLimit) == 2
  {
    BaseMarks();
    LimitMarks();
    MarksOfConcat(SearchBase, SearchLimit);
  }

  /** The search route up to its query, built step by step as the route builds it; a
      conversion that throws reaches Express's error handler. */
  method SearchQuery(res: Response, body: Json) returns (run: Option<Query>)
    requires res.Untouched()
    modifies res
    ensures SearchSpec(body).Throw? ==>
              run == None && res.Shows(Reply(500, map[], ErrorPage(ConvertMessage)))
    ensures SearchSpec(body).Normal? ==> run == Some(SearchSpec(body).value) && res.Untouched()
  {
    var searchString := SearchString(body);
    var sql := SearchBase;
    var params: seq<Option<Json>> := [];
    var positive := Positive(LengthOf(searchString));
    if positive.Throw? {
      res.Fail(positive.message);
      return None;
    }
    ghost var pattern: Option<string> := None;
    if positive.value {
      var text := ToString(searchString);
      if text.Throw? {
        res.Fail(text.message);
        return None;
      }
      var like := "%" + text.value + "%";
      pattern := Some(like);
      sql := sql + SearchFilter;
      params := params + [Some(JString(like))];
      assert params == [Some(JString(like))];
    } else {
      assert SearchBase + "" == SearchBase;
    }
    assert Pattern(body) == Normal(pattern);
    assert sql == FilterSql(pattern) && params == FilterParams(pattern);
    sql := sql + SearchLimit;
    var page := IntOr(Get(body, "page"), 1);
    if page.Throw? {
      res.Fail(page.message);
      return None;
    }
    var pageSize := IntOr(Get(body, "pageSize"), 10);
    if pageSize.Throw? {
      res.Fail(pageSize.message);
      return None;
    }
    var offset := (page.value - 1) * pageSize.value;
    params := params + [Some(JNumber(offset)), Some(JNumber(pageSize.value))];
    run := Some(Query(sql, params));
  }

  /** Both members of a two-member object are found under their names, and a third name is not. */
  lemma LookupOfTwo(k1: string, v1: Json, k2: string, v2: Json, other: string)
    requires k1 != k2 && other != k1 && other != k2
    ensures Lookup([(k1, v1), (k2, v2)], k1) == Some(v1) && Lookup([(k1, v1), (k2, v2)], k2) == Some(v2)
    ensures Lookup([(k1, v1), (k2, v2)], other) == None
  {
    assert [(k1, v1), (k2, v2)][..1] == [(k1, v1)];
  }

  /** Page and page size written as numbers other than 0 are used as they are, negative ones
      included, and give the offset and count of the search's limit; missing ones give the first
      page of 10. */
  lemma Paging(p: int, s: int)
    requires p != 0 && s != 0
    ensures var body := JObject([("page", JNumber(p)), ("pageSize", JNumber(s))]);
            Page(body) == Normal(p) && PageSize(body) == Normal(s) &&
            SearchSpec(body).Normal? && SearchSpec(body).value.params == [Some(JNumber((p - 1) * s)), Some(JNumber(s))]
    ensures Page(JObject([])) == Normal(1) && PageSize(JObject([])) == Normal(10)
  {
    assert "page" != "pageSize" && "keyword_name" != "page" && "keyword_name" != "pageSize" by {
      assert |"page"| != |"pageSize"| && |"keyword_name"| != |"page"| && |"keyword_name"| != |"pageSize"|;
    }
    LookupOfTwo("page", JNumber(p), "pageSize", JNumber(s), "keyword_name");
    ParseIntToString(p, false);
    ParseIntToString(s, false);
    ParseIntOfWord("undefined", false);
    var body := JObject([("page", JNumber(p)), ("pageSize", JNumber(s))]);
    assert Pattern(body) == Normal(None);
  }

  /** A search string, page or page size that is an object with its own `toString` member makes
      the route throw. */
  lemma UnconvertibleSearch(members: seq<(string, Json)>, n: nat)
    requires Lookup(members, "toString").Some? && Lookup(members, "length") == Some(JNumber(n + 1))
    ensures Pattern(JObject([("keyword_name", JObject(members))])) == Throw(ConvertMessage)
    ensures Page(JObject([("page", JObject(members))])) == Throw(ConvertMessage)
    ensures PageSize(JObject([("pageSize", JObject(members))])) == Throw(ConvertMessage)
  {
    var s := JObject(members);
    assert Get(JObject([("keyword_name", s)]), "keyword_name") == Some(s);
    assert Get(JObject([("page", s)]), "page") == Some(s);
    assert Get(JObject([("pageSize", s)]), "pageSize") == Some(s);
    assert LengthOf(s) == Some(JNumber(n + 1));
  }

  /** A non-empty string is searched for anywhere in the name; an empty or missing one searches
      nothing. */
  lemma SearchTerms(s: string)
    ensures s != [] ==> Pattern(JObject([("keyword_name", JString(s))])) == Normal(Some("%" + s + "%"))
    ensures Pattern(JObject([("keyword_name", JString(""))])) == Normal(None)
    ensures Pattern(JObject([])) == Normal(None)
  {
  }

  /** The message of the `TypeError` `k.keyword_id` raises on a `null` item. */
  const ReadNullMessage := "Cannot read properties of null (reading 'keyword_id')"

  /** `parseInt(k.keyword_id)`: a `null` item throws at the property read, an id that cannot be
      made a string throws in `parseInt`, and anything else gives a number or `NaN`. */
  function KeywordId(k: Json): Completion<Option<int>>
  {
    if k.JNull? then Throw(ReadNullMessage)
    else
      match ToStringOf(Get(k, "keyword_id"))
      case Throw(m) => Throw(m)
      case Normal(t) => Normal(ParseInt(t, false))
  }

  /** One item's step before the others': its throw ends the `map`, then the others' throw
      does; a number is kept in front of the others' and `NaN` is dropped. */
  function Cons(id: Completion<Option<int>>, rest: Completion<seq<int>>): Completion<seq<int>>
  {
    match id
    case Throw(m) => Throw(m)
    case Normal(n) =>
      match rest
      case Throw(m) => Throw(m)
      case Normal(ids) => Normal(if n.Some? then [n.value] + ids else ids)
  }

  /** What the `map` does for each item, in order. */
  function IdSteps(items: seq<Json>): (steps: seq<Completion<Option<int>>>)
    ensures |steps| == |items| && forall i :: 0 <= i < |items| ==> steps[i] == KeywordId(items[i])
  {
    seq(|items|, i requires 0 <= i < |items| => KeywordId(items[i]))
  }

  /** The `map` over its steps, ended by the first one that throws, then the `filter` that drops
      `NaN`. */
  function Collect(steps: seq<Completion<Option<int>>>): (r: Completion<seq<int>>)
    ensures r.Normal? <==> forall i :: 0 <= i < |steps| ==> steps[i].Normal?
    ensures r.Throw? ==> exists i :: 0 <= i < |steps| && steps[i] == Throw(r.message) &&
                           forall j :: 0 <= j < i ==> steps[j].Normal?
    ensures r.Normal? ==> (|r.value| <= |steps| &&
              forall n :: n in r.value <==> exists i :: 0 <= i < |steps| && steps[i] == Normal(Some(n)))
  {
    if steps == [] then Normal([])
    else
      var rest := Collect(steps[1..]);
      assert forall i :: 1 <= i < |steps| ==> steps[i] == steps[1..][i - 1];
      assert steps[0].Normal? && rest.Throw? ==>
               exists i :: 0 <= i < |steps| && steps[i] == Throw(rest.message) &&
                 forall j :: 0 <= j < i ==> steps[j].Normal? by {
        if steps[0].Normal? && rest.Throw? {
          var i :| 0 <= i < |steps| - 1 && steps[1..][i] == Throw(rest.message) &&
                   forall j :: 0 <= j < i ==> steps[1..][j].Normal?;
          assert steps[i + 1] == Throw(rest.message);
          forall j | 0 <= j < i + 1 ensures steps[j].Normal? {
            if j > 0 {
              assert steps[j] == steps[1..][j - 1];
            }
          }
        }
      }
      Cons(steps[0], rest)
  }

  /** `keywords.map(k => parseInt(k.keyword_id)).filter(id => !isNaN(id))`: the numbers in item
      order, or the error of the first item whose step throws. */
  function KeywordIds(items: seq<Json>): (r: Completion<seq<int>>)
    ensures r.Normal? <==> forall i :: 0 <= i < |items| ==> KeywordId(items[i]).Normal?
    ensures r.Throw? ==> exists i :: 0 <= i < |items| && KeywordId(items[i]) == Throw(r.message) &&
                           forall j :: 0 <= j < i ==> KeywordId(items[j]).Normal?
    ensures r.Normal? ==> (|r.value| <= |items| &&
              forall n :: n in r.value <==> exists i :: 0 <= i < |items| && KeywordId(items[i]) == Normal(Some(n)))
  {
    Collect(IdSteps(items))
  }

  /** Two steps one after the other: the first throw ends both, otherwise the ids add up. */
  function Then(x: Completion<seq<int>>, y: Completion<seq<int>>): Completion<seq<int>>
  {
    match x
    case Throw(m) => Throw(m)
    case Normal(a) =>
      match y
      case Throw(m) => Throw(m)
      case Normal(b) => Normal(a + b)
  }

  /** An item's step in front of two pieces of work is a step in front of the first. */
  lemma ConsThen(id: Completion<Option<int>>, x: Completion<seq<int>>, y: Completion<seq<int>>)
    ensures Cons(id, Then(x, y)) == Then(Cons(id, x), y)
  {
    if id.Normal? && x.Normal? && y.Normal? && id.value.Some? {
      assert [id.value.value] + (x.value + y.value) == [id.value.value] + x.value + y.value;
    }
  }

  /** The first item's step comes before the rest's. */
  lemma KeywordIdsCons(k: Json, rest: seq<Json>)
    ensures KeywordIds([k] + rest) == Cons(KeywordId(k), KeywordIds(rest))
  {
    var steps := IdSteps([k] + rest);
    assert steps[0] == KeywordId(k);
    assert steps[1..] == IdSteps(rest);
  }

  /** Collecting two runs of steps is collecting the first, then the second. */
  lemma {:induction false} CollectAppend(x: seq<Completion<Option<int>>>, y: seq<Completion<Option<int>>>)
    ensures Collect(x + y) == Then(Collect(x), Collect(y))
  {
    if x == [] {
      assert x + y == y;
      if Collect(y).Normal? {
        assert [] + Collect(y).value == Collect(y).value;
      }
    } else {
      assert (x + y)[0] == x[0] && (x + y)[1..] == x[1..] + y;
      CollectAppend(x[1..], y);
      ConsThen(x[0], Collect(x[1..]), Collect(y));
    }
  }

  /** The ids keep the order of the items, and the first throw wins: extracting from a
      concatenation is extracting from its parts one after the other. */
  lemma KeywordIdsAppend(a: seq<Json>, b: seq<Json>)
    ensures KeywordIds(a + b) == Then(KeywordIds(a), KeywordIds(b))
  {
    assert IdSteps(a + b) == IdSteps(a) + IdSteps(b);
    CollectAppend(IdSteps(a), IdSteps(b));
  }

  /** `{keyword_id: n}` */
  function IdItem(n: int): Json
  {
    JObject([("keyword_id", JNumber(n))])
  }

  /** One `{keyword_id: n}` per number, in order. */
  function IdItems(ns: seq<int>): seq<Json>
  {
    if ns == [] then [] else [IdItem(ns[0])] + IdItems(ns[1..])
  }

  /** Items whose `keyword_id` is a number give exactly those numbers, in order. */
  lemma {:induction false} NumericIds(ns: seq<int>)
    ensures KeywordIds(IdItems(ns)) == Normal(ns)
  {
    if ns != [] {
      var items := IdItems(ns);
      assert items == [items[0]] + IdItems(ns[1..]);
      NumericIds(ns[1..]);
      KeywordIdsCons(items[0], IdItems(ns[1..]));
      ParseIntToString(ns[0], false);
      assert Get(items[0], "keyword_id") == Some(JNumber(ns[0]));
      assert KeywordId(items[0]) == Normal(Some(ns[0]));
      assert [ns[0]] + ns[1..] == ns;
    }
  }

  /** `parseInt` gives `NaN` for an id that does not start with digits, a missing one
      included. */
  lemma IdsWithoutDigits()
    ensures KeywordId(JObject([])) == Normal(None)
    ensures KeywordId(JObject([("keyword_id", JString("abc"))])) == Normal(None)
    ensures KeywordId(JObject([("keyword_id", JBool(true))])) == Normal(None)
  {
    ParseIntOfWord("undefined", false);
    ParseIntOfWord("abc", false);
    ParseIntOfWord("true", false);
    assert Get(JObject([("keyword_id", JString("abc"))]), "keyword_id") == Some(JString("abc"));
    assert Get(JObject([("keyword_id", JBool(true))]), "keyword_id") == Some(JBool(true));
  }

  /** `parseInt` reads the digits an id starts with: `12abc` is 12. */
  lemma IdWithTrailingText()
    ensures KeywordId(JObject([("keyword_id", JString("12abc"))])) == Normal(Some(12))
  {
    assert Decimal(12) == "12" by {
      assert DigitChar(1) == '1' && DigitChar(2) == '2';
      assert Decimal(12) == Decimal(1) + [DigitChar(2)];
    }
    assert "12abc" == Decimal(12) + "abc";
    ParseDecimalPrefix(12, "abc", false);
    assert Get(JObject([("keyword_id", JString("12abc"))]), "keyword_id") == Some(JString("12abc"));
  }

  /** An entry whose id does not parse is dropped and changes nothing else. */
  lemma UnparsableDropped(k: Json, rest: seq<Json>)
    requires KeywordId(k) == Normal(None)
    ensures KeywordIds([k] + rest) == KeywordIds(rest)
  {
    KeywordIdsCons(k, rest);
  }

  /** A `null` item, or one whose `keyword_id` is an object with its own `toString`, ends the
      `map` with its error, whatever follows it. */
  lemma ThrowingItems(members: seq<(string, Json)>, rest: seq<Json>)
    requires Lookup(members, "toString").Some?
    ensures KeywordIds([JNull] + rest) == Throw(ReadNullMessage)
    ensures KeywordIds([JObject([("keyword_id", JObject(members))])] + rest) == Throw(ConvertMessage)
  {
    var k := JObject([("keyword_id", JObject(members))]);
    assert Get(k, "keyword_id") == Some(JObject(members));
    assert KeywordId(k) == Throw(ConvertMessage);
    KeywordIdsCons(JNull, rest);
    KeywordIdsCons(k, rest);
  }

  const NoItemMessage := "No item ID was provided."
  const BadArrayMessage := "Invalid or empty keywords array."
  const NoIdsMessage := "No valid keyword IDs provided."

  const LinkSql := "\n        INSERT INTO fs_items_to_keywords (item_id, keyword_id) \n        VALUES ? \n        ON DUPLICATE KEY UPDATE item_id = VALUES(item_id), keyword_id = VALUES(keyword_id)\n    "

  /** `[item_id, id]` for each id. */
  function LinkRows(itemId: string, ids: seq<int>): (rows: seq<Json>)
    ensures |rows| == |ids|
    ensures forall i :: 0 <= i < |ids| ==> rows[i] == JArray([JString(itemId), JNumber(ids[i])])
  {
    seq(|ids|, i requires 0 <= i < |ids| => JArray([JString(itemId), JNumber(ids[i])]))
  }

  /** The link insert: its one `?` takes the whole list of rows. */
  function LinkQuery(itemId: string, ids: seq<int>): Query
  {
    Query(LinkSql, [Some(JArray(LinkRows(itemId, ids)))])
  }

  /** The link route up to its query, its checks in order: the item id, the array, the ids. An
      item whose step of the `map` throws reaches Express's error handler. */
  method LinkKeywords(res: Response, itemId: string, body: Json) returns (run: Option<Query>)
    requires res.Untouched()
    modifies res
    ensures itemId == "" ==>
              run == None && res.Shows(Reply(400, map[], JsonBody(ErrorJson(NoItemMessage))))
    ensures itemId != "" && (!body.JArray? || body.items == []) ==>
              run == None && res.Shows(Reply(400, map[], JsonBody(ErrorJson(BadArrayMessage))))
    ensures itemId != "" && body.JArray? && body.items != [] && KeywordIds(body.items).Throw? ==>
              run == None && res.Shows(Reply(500, map[], ErrorPage(KeywordIds(body.items).message)))
    ensures itemId != "" && body.JArray? && body.items != [] && KeywordIds(body.items) == Normal([]) ==>
              run == None && res.Shows(Reply(400, map[], JsonBody(ErrorJson(NoIdsMessage))))
    ensures itemId != "" && body.JArray? && KeywordIds(body.items).Normal? && KeywordIds(body.items).value != [] ==>
              run == Some(LinkQuery(itemId, KeywordIds(body.items).value)) && res.Untouched()
  {
    if itemId == "" {
      res.Status(400);
      res.Send(JsonBody(ErrorJson(NoItemMessage)));
      return None;
    }
    if !body.JArray? || |body.items| == 0 {
      res.Status(400);
      res.Send(JsonBody(ErrorJson(BadArrayMessage)));
      return None;
    }
    var keywordIds := KeywordIds(body.items);
    if keywordIds.Throw? {
      res.Fail(keywordIds.message);
      return None;
    }
    if |keywordIds.value| == 0 {
      res.Status(400);
      res.Send(JsonBody(ErrorJson(NoIdsMessage)));
      return None;
    }
    run := Some(LinkQuery(itemId, keywordIds.value));
  }
}
