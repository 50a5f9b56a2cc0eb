/**
 * The query strings of cbapi: the fixed seven-key dicts that `get_org` and `get_ppl` build, and
 * the per-page copy a worker sends, which keeps every filter and overrides only `page`.
 */
module Query {
  import opened Wrappers
  import Decimal

  /** A query-string value: a string, an integer (the default `page=1`), or `None`. */
  datatype Param = PStr(s: string) | PInt(i: int) | PNone

  /** A query string. Python keeps it as a dict; only its keys and values reach the API. */
  type QueryString = map<string, Param>

  /** An optional string argument of `get_org` / `get_ppl`: `None` stays `None`. */
  function FromOption(o: Option<string>): (p: Param)
    ensures p == PNone <==> o == None
    ensures o.Some? ==> p == PStr(o.value)
  {
    match o
    case None => PNone
    case Some(s) => PStr(s)
  }

  /** `{**querystring, "page": str(page)}`. */
  function WithPage(q: QueryString, page: int): QueryString
  {
    q["page" := PStr(Decimal.IntToDecimal(page))]
  }

  /** The per-page request has the caller's keys plus `page`, and every other key keeps the
      caller's value. */
  lemma WithPageKeepsFilters(q: QueryString, page: int)
    ensures WithPage(q, page).Keys == q.Keys + {"page"}
    ensures forall k :: k in q && k != "page" ==> WithPage(q, page)[k] == q[k]
  {
    var r := WithPage(q, page);
    forall k | k in q && k != "page"
      ensures r[k] == q[k]
    {
    }
  }

  /** The `page` a worker sends is text that reads back as the page number. */
  lemma WithPageReadsBack(q: QueryString, page: int)
    ensures WithPage(q, page)["page"].PStr?
    ensures Decimal.ParseInt(WithPage(q, page)["page"].s) == page
  {
    Decimal.ParseIntToDecimal(page);
  }

  /** Two pages never share a request: the override tells them apart. */
  lemma WithPageInjective(q: QueryString, p1: int, p2: int)
    requires WithPage(q, p1) == WithPage(q, p2)
    ensures p1 == p2
  {
    WithPageReadsBack(q, p1);
    WithPageReadsBack(q, p2);
  }

  const OrgKeys: set<string> :=
    {"updated_since", "query", "name", "domain_name", "locations", "organization_types", "page"}

  const PplKeys: set<string> :=
    {"updated_since", "query", "name", "socials", "locations", "type", "page"}

  /** The query string `get_org` hands to the coordinator. */
  function OrgQuery(sinceTime: int, query: Option<string>, name: Option<string>,
                    domainName: Option<string>, locations: Option<string>,
                    orgTypes: Option<string>, page: Param): (r: QueryString)
    ensures r.Keys == OrgKeys
    ensures r["updated_since"].PStr? && Decimal.ParseInt(r["updated_since"].s) == sinceTime
    ensures r["query"] == FromOption(query) && r["name"] == FromOption(name)
    ensures r["domain_name"] == FromOption(domainName) && r["locations"] == FromOption(locations)
    ensures r["organization_types"] == FromOption(orgTypes) && r["page"] == page
  {
    Decimal.ParseIntToDecimal(sinceTime);
    map["updated_since" := PStr(Decimal.IntToDecimal(sinceTime)),
        "query" := FromOption(query),
        "name" := FromOption(name),
        "domain_name" := FromOption(domainName),
        "locations" := FromOption(locations),
        "organization_types" := FromOption(orgTypes),
        "page" := page]
  }

  /** The query string `get_ppl` hands to the coordinator. */
  function PplQuery(sinceTime: int, query: Option<string>, name: Option<string>,
                    socials: Option<string>, locations: Option<string>,
                    personType: Option<string>, page: Param): (r: QueryString)
    ensures r.Keys == PplKeys
    ensures r["updated_since"].PStr? && Decimal.ParseInt(r["updated_since"].s) == sinceTime
    ensures r["query"] == FromOption(query) && r["name"] == FromOption(name)
    ensures r["socials"] == FromOption(socials) && r["locations"] == FromOption(locations)
    ensures r["type"] == FromOption(personType) && r["page"] == page
  {
    Decimal.ParseIntToDecimal(sinceTime);
    map["updated_since" := PStr(Decimal.IntToDecimal(sinceTime)),
        "query" := FromOption(query),
        "name" := FromOption(name),
        "socials" := FromOption(socials),
        "locations" := FromOption(locations),
        "type" := FromOption(personType),
        "page" := page]
  }

  /** A worker's request for an organization query keeps exactly the seven keys and every filter
      the caller gave; only `page` changes. */
  lemma OrgPageRequest(sinceTime: int, query: Option<string>, name: Option<string>,
                       domainName: Option<string>, locations: Option<string>,
                       orgTypes: Option<string>, start: Param, page: int)
    ensures var q := OrgQuery(sinceTime, query, name, domainName, locations, orgTypes, start);
            var r := WithPage(q, page);
            && r.Keys == OrgKeys
            && r["updated_since"] == q["updated_since"] && r["name"] == FromOption(name)
            && r["query"] == FromOption(query) && r["domain_name"] == FromOption(domainName)
            && r["locations"] == FromOption(locations)
            && r["organization_types"] == FromOption(orgTypes)
            && r["page"] == PStr(Decimal.IntToDecimal(page))
  {
    var q := OrgQuery(sinceTime, query, name, domainName, locations, orgTypes, start);
    WithPageKeepsFilters(q, page);
    assert q.Keys + {"page"} == OrgKeys;
  }

  /** A worker's request for a people query keeps exactly the seven keys and every filter the
      caller gave; only `page` changes. */
  lemma PplPageRequest(sinceTime: int, query: Option<string>, name: Option<string>,
                       socials: Option<string>, locations: Option<string>,
                       personType: Option<string>, start: Param, page: int)
    ensures var q := PplQuery(sinceTime, query, name, socials, locations, personType, start);
            var r := WithPage(q, page);
            && r.Keys == PplKeys
            && r["updated_since"] == q["updated_since"] && r["name"] == FromOption(name)
            && r["query"] == FromOption(query) && r["socials"] == FromOption(socials)
            && r["locations"] == FromOption(locations)
            && r["type"] == FromOption(personType)
            && r["page"] == PStr(Decimal.IntToDecimal(page))
  {
    var q := PplQuery(sinceTime, query, name, socials, locations, personType, start);
    WithPageKeepsFilters(q, page);
    assert q.Keys + {"page"} == PplKeys;
  }
}
