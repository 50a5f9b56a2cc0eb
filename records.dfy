/**
 * Lines 109-119 of get_info's worker: each item's `properties` dict becomes one record, keyed by
 * the item's identity (an organization's `name`, a person's `first_name + last_name`) and holding
 * the remaining fields.
 */
module Records {
  import opened Wrappers
  import opened PyDict

  /** The two `obj_type` values the public entry points pass. */
  datatype Kind = Organizations | People

  /** A `pd.Series(dict_record, name=item_name)`: the identity key and the remaining fields. */
  datatype Record = Record(key: Value, fields: Dict)

  /** The faults the source raises; each stops the thread (or the call) that raises it. */
  datatype Error =
    | FetchFailed(page: int)        // `None["data"]` after a non-200 response to a page request
    | FirstFetchFailed              // the same fault on the first, unpaged request
    | MissingField(field: string)   // KeyError on `dict_record[field]`
    | TypeMismatch                  // TypeError from `+` on two values it cannot add
    | BadSections(sections: int)    // ValueError from `np.array_split` with no sections
    | NoSampleItem                  // IndexError on `items[0]` of an empty first page
    | UnnamedRow                    // TypeError from `DataFrame.append` on a Series named None

  /** Python's binary `+` on two JSON scalars: strings concatenate, integers add, anything else is
      a TypeError. */
  function Plus(a: Value, b: Value): (r: Result<Value, Error>)
    ensures a.Str? && b.Str? ==> r == Ok(Str(a.s + b.s))
    ensures a.Int? && b.Int? ==> r == Ok(Int(a.i + b.i))
    ensures r.Err? <==> !((a.Str? && b.Str?) || (a.Int? && b.Int?))
  {
    match (a, b)
    case (Str(x), Str(y)) => Ok(Str(x + y))
    case (Int(x), Int(y)) => Ok(Int(x + y))
    case _ => Err(TypeMismatch)
  }

  /** `dict_record[field]`. */
  function Lookup(d: Dict, field: string): Result<Value, Error>
  {
    match Get(d, field)
    case Some(v) => Ok(v)
    case None => Err(MissingField(field))
  }

  /** Lines 110-119: the record an item becomes, or the fault that stops the worker. */
  function Normalize(kind: Kind, item: Dict): Result<Record, Error>
  {
    match kind
    case Organizations =>
      (match Lookup(item, "name")
       case Err(e) => Err(e)
       case Ok(name) => Ok(Record(name, Pop(item, "name"))))
    case People =>
      (match Lookup(item, "first_name")
       case Err(e) => Err(e)
       case Ok(first) =>
         match Lookup(item, "last_name")
         case Err(e) => Err(e)
         case Ok(last) =>
           match Plus(first, last)
           case Err(e) => Err(e)
           case Ok(key) => Ok(Record(key, Pop(Pop(item, "first_name"), "last_name"))))
  }

  /** The fields that identify a record of this kind and are dropped from its field map. */
  function IdentityFields(kind: Kind): set<string>
  {
    match kind
    case Organizations => {"name"}
    case People => {"first_name", "last_name"}
  }

  /** A record carries none of its kind's identity fields. */
  predicate IdentityRemoved(kind: Kind, r: Record)
  {
    forall f :: f in IdentityFields(kind) ==> Get(r.fields, f) == None
  }

  /** An organization item normalizes exactly when it has a `name`; the key is that name, `name`
      is gone from the fields and every other field keeps its value. */
  lemma NormalizeOrganization(item: Dict)
    ensures Normalize(Organizations, item).Ok? <==> Get(item, "name").Some?
    ensures Normalize(Organizations, item).Err? ==>
              Normalize(Organizations, item).error == MissingField("name")
    ensures Normalize(Organizations, item).Ok? ==>
              var r := Normalize(Organizations, item).value;
              && r.key == Get(item, "name").value
              && Get(r.fields, "name") == None
              && |r.fields| == |item| - 1
              && forall f :: f != "name" ==> Get(r.fields, f) == Get(item, f)
  {
    if Get(item, "name").Some? {
      GetKeys(item, "name");
      PopGet(item, "name", "name");
      forall f | f != "name"
        ensures Get(Pop(item, "name"), f) == Get(item, f)
      {
        PopGet(item, "name", f);
      }
    }
  }

  /** A person item normalizes exactly when it has a `first_name` and a `last_name` that `+` can
      join; with two strings the key is their concatenation with no separator, both fields are
      gone and every other field keeps its value. */
  lemma NormalizePerson(item: Dict)
    ensures Normalize(People, item).Ok? <==>
              && Get(item, "first_name").Some? && Get(item, "last_name").Some?
              && Plus(Get(item, "first_name").value, Get(item, "last_name").value).Ok?
    ensures Get(item, "first_name") == None ==>
              Normalize(People, item) == Err(MissingField("first_name"))
    ensures Get(item, "first_name").Some? && Get(item, "last_name") == None ==>
              Normalize(People, item) == Err(MissingField("last_name"))
    ensures Normalize(People, item).Ok? ==>
              var r := Normalize(People, item).value;
              && Get(r.fields, "first_name") == None
              && Get(r.fields, "last_name") == None
              && |r.fields| == |item| - 2
              && forall f :: f != "first_name" && f != "last_name" ==> Get(r.fields, f) == Get(item, f)
    ensures (Get(item, "first_name").Some? && Get(item, "first_name").value.Str? &&
             Get(item, "last_name").Some? && Get(item, "last_name").value.Str?) ==>
              Normalize(People, item).Ok? &&
              Normalize(People, item).value.key ==
                Str(Get(item, "first_name").value.s + Get(item, "last_name").value.s)
  {
    if Normalize(People, item).Ok? {
      var once := Pop(item, "first_name");
      var fields := Pop(once, "last_name");
      PopGet(item, "first_name", "first_name");
      PopGet(item, "first_name", "last_name");
      PopGet(once, "last_name", "first_name");
      PopGet(once, "last_name", "last_name");
      GetKeys(item, "first_name");
      GetKeys(once, "last_name");
      forall f | f != "first_name" && f != "last_name"
        ensures Get(fields, f) == Get(item, f)
      {
        PopGet(item, "first_name", f);
        PopGet(once, "last_name", f);
      }
    }
  }

  /** Whatever the kind, a normalized record has none of its identity fields left. */
  lemma NormalizeRemovesIdentity(kind: Kind, item: Dict)
    requires Normalize(kind, item).Ok?
    ensures IdentityRemoved(kind, Normalize(kind, item).value)
  {
    match kind
    case Organizations => NormalizeOrganization(item);
    case People => NormalizePerson(item);
  }

  /** Item `i` normalizes to record `i`, for every position: one record per item, in order. */
  predicate NormalizesTo(kind: Kind, items: seq<Dict>, records: seq<Record>)
  {
    && |items| == |records|
    && forall i :: 0 <= i < |items| ==> Normalize(kind, items[i]) == Ok(records[i])
  }

  /** Items normalized in two runs, then put side by side, are the two runs of items put side by
      side, normalized. */
  lemma NormalizesToAppend(kind: Kind, a: seq<Dict>, ra: seq<Record>, b: seq<Dict>, rb: seq<Record>)
    requires NormalizesTo(kind, a, ra) && NormalizesTo(kind, b, rb)
    ensures NormalizesTo(kind, a + b, ra + rb)
  {
    forall i | 0 <= i < |a + b|
      ensures Normalize(kind, (a + b)[i]) == Ok((ra + rb)[i])
    {
      if i >= |a| {
        assert (a + b)[i] == b[i - |a|] && (ra + rb)[i] == rb[i - |a|];
      }
    }
  }

  /** With no separator between the names, two different people can share a key: first and
      last names "Ann" and "Lee", and "An" and "nLee", both become the key "AnnLee". */
  lemma PeopleKeysCollide()
    ensures var a := [Entry("first_name", Str("Ann")), Entry("last_name", Str("Lee"))];
            var b := [Entry("first_name", Str("An")), Entry("last_name", Str("nLee"))];
            && UniqueKeys(a) && UniqueKeys(b) && a != b
            && Normalize(People, a).Ok? && Normalize(People, b).Ok?
            && Normalize(People, a).value.key == Normalize(People, b).value.key
  {
    var a: Dict := [Entry("first_name", Str("Ann")), Entry("last_name", Str("Lee"))];
    var b: Dict := [Entry("first_name", Str("An")), Entry("last_name", Str("nLee"))];
    assert Get(a, "first_name") == Some(Str("Ann"));
    assert Get(a, "last_name") == Some(Str("Lee"));
    assert Get(b, "first_name") == Some(Str("An"));
    assert Get(b, "last_name") == Some(Str("nLee"));
    assert "Ann" + "Lee" == "An" + "nLee";
  }
}
