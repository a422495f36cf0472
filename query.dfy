/**
 * The request URL's query string, as the helpers `setQueryParam` and
 * `setNonEmptyQueryParams` update it in place.  The query is a map from
 * key to value; parsing and re-encoding the raw query (escaping, key
 * order) are not modelled.
 */
module Query {

  type Params = map<string, string>

  /** The keys of `p` whose value is non-empty. */
  ghost predicate SetsKey(p: Params, k: string)
  {
    k in p && p[k] != ""
  }

  /**
   * The query after setting every non-empty value of `p`: those keys take
   * their value from `p`; every other key, whether absent from `p` or given
   * an empty value there, keeps its value in `q` (or stays absent).
   */
  function WithNonEmpty(q: Params, p: Params): (r: Params)
    ensures forall k :: SetsKey(p, k) ==> k in r && r[k] == p[k]
    ensures forall k :: !SetsKey(p, k) ==> (k in r <==> k in q)
    ensures forall k :: !SetsKey(p, k) && k in q ==> r[k] == q[k]
  {
    map k | k in q.Keys + p.Keys && (k in q || p[k] != "") ::
      if k in p && p[k] != "" then p[k] else q[k]
  }

  /** Setting one more key of `p` extends the result by that key alone. */
  lemma WithNonEmptyAddKey(q: Params, p: Params, done: set<string>, k: string)
    requires k in p && done <= p.Keys && k !in done
    ensures WithNonEmpty(q, Restrict(p, done + {k})) ==
            if p[k] != "" then WithNonEmpty(q, Restrict(p, done))[k := p[k]]
            else WithNonEmpty(q, Restrict(p, done))
  {
  }

  /** `p` restricted to the keys in `keys`. */
  function Restrict(p: Params, keys: set<string>): (r: Params)
    ensures r.Keys == p.Keys * keys
    ensures forall k :: k in r ==> r[k] == p[k]
  {
    map k | k in p.Keys * keys :: p[k]
  }

  /** A URL whose query is changed in place. */
  class RequestUrl {
    var query: Params

    /** A URL with no query, as parsed from the endpoint string. */
    constructor ()
      ensures query == map[]
    {
      query := map[];
    }

    /** `setQueryParam`: sets one key, replacing any value it had, and
        touches no other key; setting a key to the value it already has
        changes nothing. */
    method SetQueryParam(k: string, v: string)
      modifies this
      ensures k in query && query[k] == v
      ensures forall j :: j != k ==> (j in query <==> j in old(query))
      ensures forall j :: j != k && j in old(query) ==> query[j] == old(query)[j]
      ensures old(k in query && query[k] == v) ==> query == old(query)
    {
      var q := query;
      q := q[k := v];
      query := q;
    }

    /** `setNonEmptyQueryParams`: sets every key of `p` whose value is
        non-empty, one key at a time in no particular order. */
    method SetNonEmptyQueryParams(p: Params)
      modifies this
      ensures query == WithNonEmpty(old(query), p)
    {
      var q := query;
      var todo := p.Keys;
      assert Restrict(p, p.Keys - todo) == map[];
      while todo != {}
        invariant todo <= p.Keys
        invariant q == WithNonEmpty(old(query), Restrict(p, p.Keys - todo))
        decreases todo
      {
        var k :| k in todo;
        WithNonEmptyAddKey(old(query), p, p.Keys - todo, k);
        assert p.Keys - todo + {k} == p.Keys - (todo - {k});
        if |p[k]| > 0 {
          q := q[k := p[k]];
        }
        todo := todo - {k};
      }
      assert Restrict(p, p.Keys - todo) == p;
      query := q;
    }
  }

  /** Decimal digit `d`. */
  function Digit(d: nat): char
    requires d < 10
  {
    "0123456789"[d]
  }

  predicate IsDigits(s: string)
  {
    forall i :: 0 <= i < |s| ==> '0' <= s[i] <= '9'
  }

  /** `strconv.Itoa` of a non-negative number: its decimal digits, most
      significant first, with no leading zero. */
  function DecimalString(n: nat): (s: string)
    ensures |s| >= 1 && IsDigits(s)
    ensures s[0] == '0' ==> n == 0
  {
    if n < 10 then [Digit(n)] else DecimalString(n / 10) + [Digit(n % 10)]
  }

  /** The number a string of decimal digits denotes. */
  function ParseDecimal(s: string): nat
    requires IsDigits(s)
  {
    if s == [] then 0 else ParseDecimal(s[..|s| - 1]) * 10 + (s[|s| - 1] - '0') as nat
  }

  /** The decimal form of an offset reads back as that offset, so distinct
      offsets give distinct `start` values. */
  lemma {:induction false} DecimalRoundTrip(n: nat)
    ensures ParseDecimal(DecimalString(n)) == n
  {
    if n >= 10 {
      var s := DecimalString(n);
      var init := DecimalString(n / 10);
      assert s == init + [Digit(n % 10)];
      assert s[..|s| - 1] == init;
      assert (s[|s| - 1] - '0') as nat == n % 10;
      DecimalRoundTrip(n / 10);
      assert ParseDecimal(s) == (n / 10) * 10 + n % 10;
    }
  }

  /**
   * The query of a page request: the base query with `start` set to the
   * offset in decimal.  Every other key is as in the base, and a `start`
   * left by an earlier request is overwritten.
   */
  function PageQuery(base: Params, offset: nat): (q: Params)
    ensures "start" in q && IsDigits(q["start"]) && ParseDecimal(q["start"]) == offset
    ensures forall k :: k != "start" ==> (k in q <==> k in base)
    ensures forall k :: k != "start" && k in base ==> q[k] == base[k]
  {
    DecimalRoundTrip(offset);
    base["start" := DecimalString(offset)]
  }

  /** The first lines of a `fetchNextChunk` closure: point the shared URL
      at the page starting at `offset`. */
  method PreparePageRequest(u: RequestUrl, offset: nat)
    modifies u
    ensures u.query == PageQuery(old(u.query), offset)
  {
    u.SetQueryParam("start", DecimalString(offset));
  }

  /** Each request's query depends only on the base query and its own
      offset, whatever offsets were requested before. */
  lemma PageQueryOverwrites(base: Params, earlier: nat, offset: nat)
    ensures PageQuery(PageQuery(base, earlier), offset) == PageQuery(base, offset)
  {
  }
}
