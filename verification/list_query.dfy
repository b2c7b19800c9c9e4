/**
 The list handler's query: defaults and cap for `limit` and `offset`, and
 the filter the store evaluates for every row.
 */
module ListQuery {
  import opened Wrappers
  import opened Text
  import opened TagCodec
  import opened Resources

  const DefaultLimit := 20
  const MaxLimit := 100
  const DefaultOffset := 0

  /** The query parameters, already parsed: an absent or empty parameter is
      None. */
  datatype ListParams = ListParams(q: Option<string>, tag: Option<string>, limit: Option<int>, offset: Option<int>)

  /** The normalised query the handler sends to the store. */
  datatype Query = Query(q: string, tag: string, limit: int, offset: int)

  /** `Math.min(limit || 20, 100)`: 20 when none is given, never above 100,
      and any given value up to 100 kept as it is. */
  function EffectiveLimit(limit: Option<int>): (n: int)
    ensures n <= MaxLimit
    ensures limit.None? ==> n == DefaultLimit
    ensures limit.Some? && limit.value <= MaxLimit ==> n == limit.value
    ensures limit.Some? && limit.value > MaxLimit ==> n == MaxLimit
  {
    var given := limit.GetOr(DefaultLimit);
    if given < MaxLimit then given else MaxLimit
  }

  /** `offset || 0`: 0 when none is given, otherwise the given value. */
  function EffectiveOffset(offset: Option<int>): (n: int)
    ensures offset.None? ==> n == DefaultOffset
    ensures offset.Some? ==> n == offset.value
  {
    offset.GetOr(DefaultOffset)
  }

  function Normalise(p: ListParams): (query: Query)
    ensures query.q == p.q.GetOr("") && query.tag == p.tag.GetOr("")
    ensures query.limit == EffectiveLimit(p.limit) && query.offset == EffectiveOffset(p.offset)
  {
    Query(p.q.GetOr(""), p.tag.GetOr(""), EffectiveLimit(p.limit), EffectiveOffset(p.offset))
  }

  /** Normalising is stable: a normalised query, sent again, is unchanged. */
  lemma NormaliseIdempotent(p: ListParams)
    ensures var query := Normalise(p);
            Normalise(ListParams(Some(query.q), Some(query.tag), Some(query.limit), Some(query.offset))) == query
  {
  }

  /** The `q` clause: an empty `q` admits every row; otherwise `q` must occur,
      ignoring case, in the name or in a present description. */
  predicate TextClause(row: Row, q: string, fold: char -> char) {
    || q == ""
    || ContainsInsensitive(row.name, q, fold)
    || (row.description.Some? && ContainsInsensitive(row.description.value, q, fold))
  }

  /** The `tag` clause: an empty `tag` admits every row; otherwise `tag` must
      occur, ignoring case, in the stored comma-joined tag string. */
  predicate TagClause(row: Row, tag: string, fold: char -> char) {
    tag == "" || ContainsInsensitive(row.tags, tag, fold)
  }

  /** The `where` object: the conjunction of the two clauses. */
  predicate Matches(row: Row, query: Query, fold: char -> char) {
    TextClause(row, query.q, fold) && TagClause(row, query.tag, fold)
  }

  /** Without `q` and `tag` every row matches. */
  lemma NoFilterMatchesAll(row: Row, fold: char -> char, limit: int, offset: int)
    ensures Matches(row, Query("", "", limit, offset), fold)
  {
  }

  /** An exact occurrence of `q` in the name or in the description is
      enough for the `q` clause, whatever the case folding. */
  lemma TextClauseOnExactMatch(row: Row, q: string, fold: char -> char)
    requires Contains(row.name, q) || (row.description.Some? && Contains(row.description.value, q))
    ensures TextClause(row, q, fold)
  {
    if Contains(row.name, q) {
      ContainsIsInsensitive(row.name, q, fold);
    } else {
      ContainsIsInsensitive(row.description.value, q, fold);
    }
  }

  /** Filtering ignores case: two filters that fold to the same string admit
      the same rows. */
  lemma CaseInsensitive(row: Row, a: Query, b: Query, fold: char -> char)
    requires Fold(a.q, fold) == Fold(b.q, fold) && Fold(a.tag, fold) == Fold(b.tag, fold)
    ensures Matches(row, a, fold) <==> Matches(row, b, fold)
  {
  }

  /** Filtering by any one of a created resource's tags finds it. */
  lemma TagOfResourceMatches(id: int, createdAt: int, x: Schema.CreateInput, i: nat, fold: char -> char)
    requires x.tags.Some? && i < |x.tags.value|
    ensures TagClause(NewRow(id, createdAt, x), x.tags.value[i], fold)
  {
    EncodingContainsTags(x.tags.value);
    ContainsIsInsensitive(ToCSV(x.tags), x.tags.value[i], fold);
  }

  /** The tag clause tests the encoded string, not each tag: `tag = "a,b"`
      finds a resource tagged `a` and `b`, and `tag = "a"` finds one tagged
      `cat`. */
  lemma TagClauseIsSubstring(id: int, createdAt: int, fold: char -> char)
    ensures TagClause(NewRow(id, createdAt, Schema.CreateInput("w", None, Some(["a", "b"]))), "a,b", fold)
    ensures TagClause(NewRow(id, createdAt, Schema.CreateInput("w", None, Some(["cat"]))), "a", fold)
  {
    var ab := NewRow(id, createdAt, Schema.CreateInput("w", None, Some(["a", "b"])));
    assert ab.tags == "a,b";
    assert OccursAt("a,b", "a,b", 0);
    ContainsIsInsensitive("a,b", "a,b", fold);
    var cat := NewRow(id, createdAt, Schema.CreateInput("w", None, Some(["cat"])));
    assert cat.tags == "cat";
    assert OccursAt("cat", "a", 1);
    ContainsIsInsensitive("cat", "a", fold);
  }
}
