/** The list-query builder that `getAllDog` and `getAllFood` each spell out: query-string
    values become a filter, a projection, a sort key and a pagination window. */
module QueryBuilder {
  import opened Wrappers
  import opened JsStrings
  import opened JsNumbers

  /** JavaScript truthiness of a query-string value: present and not the empty string. */
  predicate Given(v: Option<string>) {
    v.Some? && v.value != ""
  }

  /** `{ $gte, $lte }` on a numeric field. Each bound is set or not; a set bound holds
      the parse result as it is, `None` standing for a value that is not a number. */
  datatype Range<N> = Range(gte: Option<Option<N>>, lte: Option<Option<N>>)

  /** A page of results: the page number, the page size and the number of records skipped. */
  datatype Page = Page(number: int, size: int, skip: int)

  /** Everything a list handler hands to the query engine. */
  datatype QuerySpec<F> = QuerySpec(filter: F, projection: string, sort: string, page: Page)

  const DefaultPage: int := 1
  const DefaultPageSize: int := 10
  const DefaultProjection: string := "-__v"

  /** `{ $in: v.split(",") }` when the parameter is given, no constraint when it is absent
      or empty. The listed values are exactly the comma-separated pieces of the parameter. */
  function MembershipConstraint(v: Option<string>): (r: Option<seq<string>>)
    ensures r.Some? <==> Given(v)
    ensures r.Some? ==> |r.value| >= 1 && Join(r.value, ",") == v.value
    ensures r.Some? ==> forall i :: 0 <= i < |r.value| ==> ',' !in r.value[i]
  {
    if Given(v) then
      JoinSplit(v.value, ',');
      Some(Split(v.value, ','))
    else None
  }

  /** The range entry on a numeric field: present exactly when a lower or an upper bound is
      given, `$gte` set only for a given lower bound and `$lte` only for a given upper bound,
      each holding `parse` of its parameter. */
  function RangeConstraint<N>(min: Option<string>, max: Option<string>, parse: string -> Option<N>): (r: Option<Range<N>>)
    ensures r.Some? <==> Given(min) || Given(max)
    ensures r.Some? ==> (r.value.gte.Some? <==> Given(min)) && (r.value.lte.Some? <==> Given(max))
    ensures r.Some? && Given(min) ==> r.value.gte.value == parse(min.value)
    ensures r.Some? && Given(max) ==> r.value.lte.value == parse(max.value)
  {
    if Given(min) || Given(max) then
      Some(Range(if Given(min) then Some(parse(min.value)) else None,
                 if Given(max) then Some(parse(max.value)) else None))
    else None
  }

  /** `parseInt(v) || fallback`: the parsed integer unless it is NaN or 0. */
  function IntOr(v: Option<string>, fallback: int): (r: int)
    ensures fallback != 0 ==> r != 0
    ensures v.Some? && ParseInt(v.value).Some? && ParseInt(v.value).value != 0 ==> r == ParseInt(v.value).value
    ensures r != fallback ==> v.Some? && ParseInt(v.value) == Some(r)
  {
    if v.None? then fallback
    else match ParseInt(v.value)
      case Some(n) => if n != 0 then n else fallback
      case None => fallback
  }

  /** `(pageNumber - 1) * pageSize` with both defaulting through `||`: page 1 and size 10
      unless the parameters parse to a non-zero integer. For a positive page and size the
      window starts at a non-negative multiple of the size, and the next page starts
      exactly where this one ends. */
  function PageOf(page: Option<string>, limit: Option<string>): (p: Page)
    ensures p.number == IntOr(page, DefaultPage) && p.size == IntOr(limit, DefaultPageSize)
    ensures p.number != 0 && p.size != 0
    ensures p.skip == (p.number - 1) * p.size
    ensures p.number >= 1 && p.size >= 1 ==> 0 <= p.skip && p.skip + p.size == p.number * p.size
  {
    var number := IntOr(page, DefaultPage);
    var size := IntOr(limit, DefaultPageSize);
    SkipNonNegative(number, size);
    Page(number, size, (number - 1) * size)
  }

  lemma SkipNonNegative(number: int, size: int)
    ensures number >= 1 && size >= 1 ==> 0 <= (number - 1) * size
    ensures (number - 1) * size + size == number * size
  {
    if number >= 1 && size >= 1 {
      var k: nat := number - 1;
      var s: nat := size;
      assert k * s >= 0;
    }
  }

  /** `parseInt(s) || fallback` on the decimal form of a non-zero integer is that integer. */
  lemma IntOrPrinted(n: int, fallback: int)
    requires n != 0
    ensures IntOr(Some(IntToString(n)), fallback) == n
  {
    ParseIntRoundTrip(n, "");
    assert IntToString(n) + "" == IntToString(n);
  }

  /** Pages given in decimal are taken as given: page n with size k skips (n - 1) * k records. */
  lemma PageOfPrinted(n: int, k: int)
    requires n != 0 && k != 0
    ensures PageOf(Some(IntToString(n)), Some(IntToString(k))) == Page(n, k, (n - 1) * k)
  {
    IntOrPrinted(n, DefaultPage);
    IntOrPrinted(k, DefaultPageSize);
  }

  /** Each name with a '-' in front. */
  function Excluded(names: seq<string>): (r: seq<string>)
    ensures |r| == |names|
    ensures forall i :: 0 <= i < |names| ==> r[i] == "-" + names[i]
  {
    seq(|names|, i requires 0 <= i < |names| => "-" + names[i])
  }

  /** `"-" + names.join(" -")` is the '-'-prefixed names joined by single spaces. */
  lemma {:induction false} DashJoin(names: seq<string>)
    requires |names| >= 1
    ensures "-" + Join(names, " -") == Join(Excluded(names), " ")
  {
    if |names| > 1 {
      var rest := names[1..];
      DashJoin(rest);
      assert Excluded(names) == ["-" + names[0]] + Excluded(rest);
      JoinCons("-" + names[0], Excluded(rest), " ");
      assert "-" + Join(names, " -") == ("-" + names[0]) + " " + ("-" + Join(rest, " -"));
    }
  }

  /** Names free of spaces, once prefixed and joined by spaces, split back apart at the spaces. */
  lemma ExcludedSplit(excludeFields: string)
    ensures ' ' !in excludeFields ==>
      Split(Join(Excluded(Split(excludeFields, ',')), " "), ' ') == Excluded(Split(excludeFields, ','))
  {
    if ' ' !in excludeFields {
      var names := Split(excludeFields, ',');
      var prefixed := Excluded(names);
      forall i | 0 <= i < |prefixed| ensures ' ' !in prefixed[i] {
        assert prefixed[i] == "-" + names[i];
      }
      SplitJoin(prefixed, ' ');
    }
  }

  /** The projection: with `excludeFields` given, every listed name prefixed by '-' and the
      names joined by single spaces, in the order listed; otherwise only the version key is
      hidden. When the names hold no space, splitting the projection at spaces gives back
      exactly the prefixed names. */
  function SelectFields(excludeFields: Option<string>): (r: string)
    ensures !Given(excludeFields) ==> r == DefaultProjection
    ensures Given(excludeFields) ==> r == Join(Excluded(Split(excludeFields.value, ',')), " ")
    ensures Given(excludeFields) && ' ' !in excludeFields.value ==>
              Split(r, ' ') == Excluded(Split(excludeFields.value, ','))
  {
    if Given(excludeFields) then
      var names := Split(excludeFields.value, ',');
      DashJoin(names);
      ExcludedSplit(excludeFields.value);
      "-" + Join(names, " -")
    else DefaultProjection
  }

  /** `sortBy || fallback`: the given key, otherwise the fallback; never empty when the
      fallback is not. */
  function SortKey(sortBy: Option<string>, fallback: string): (k: string)
    ensures Given(sortBy) ==> k == sortBy.value
    ensures !Given(sortBy) ==> k == fallback
    ensures fallback != "" ==> k != ""
  {
    if Given(sortBy) then sortBy.value else fallback
  }

  /** `.skip(skip).limit(limit)` over the records the engine has already filtered and
      sorted: at most `limit` records, taken consecutively from position `skip`, and fewer
      only when the records run out. */
  function Window<T>(records: seq<T>, skip: nat, limit: nat): (w: seq<T>)
    ensures |w| <= limit
    ensures w == [] || skip + |w| <= |records|
    ensures forall i :: 0 <= i < |w| ==> w[i] == records[skip + i]
    ensures |w| == limit || skip + |w| >= |records|
  {
    if skip >= |records| then []
    else records[skip..if skip + limit <= |records| then skip + limit else |records|]
  }

  /** Pages 1 to n, one after the other. */
  function FirstPages<T>(records: seq<T>, size: nat, n: nat): seq<T>
  {
    if n == 0 then [] else FirstPages(records, size, n - 1) + Window(records, (n - 1) * size, size)
  }

  /** The records before a window, followed by the window, are the records up to its end. */
  lemma PrefixThenWindow<T>(records: seq<T>, skip: nat, size: nat)
    ensures records[..if skip <= |records| then skip else |records|] + Window(records, skip, size)
         == records[..if skip + size <= |records| then skip + size else |records|]
  {
    if skip < |records| {
      var end := if skip + size <= |records| then skip + size else |records|;
      assert Window(records, skip, size) == records[skip..end];
      assert records[..skip] + records[skip..end] == records[..end];
    }
  }

  /** Consecutive pages neither skip nor repeat a record: pages 1 to n together are the
      first n * size records (or all of them, when there are fewer). */
  lemma {:induction false} PagesTile<T>(records: seq<T>, size: nat, n: nat)
    ensures FirstPages(records, size, n) == records[..if n * size <= |records| then n * size else |records|]
  {
    if n > 0 {
      PagesTile(records, size, n - 1);
      var skip := (n - 1) * size;
      assert n * size == skip + size;
      PrefixThenWindow(records, skip, size);
    }
  }
}
