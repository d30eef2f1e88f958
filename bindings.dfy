/** The abstract result rows both explorers consume, and the entity records
    they build from them. A row follows section 3.2.1 of the W3C "SPARQL 1.1
    Query Results JSON Format": it maps each bound variable to its term, and
    an unbound variable is simply absent. Only a term's `value` member is
    read anywhere, so a row is kept as variable -> value. */
module Bindings {
  import opened Text

  type Row = map<string, string>

  /** Python's binding_val(b, key) = b.get(key, {}).get("value") and
      JavaScript's val(binding, key) = binding[key]?.value: the value bound to
      the variable, or nothing when it is unbound; never an error. */
  function Val(r: Row, key: string): (v: Option<string>)
    ensures v.None? <==> key !in r
    ensures key in r ==> v.value == r[key]
  {
    if key in r then Some(r[key]) else None
  }

  /** Truthiness of an optional string in Python and JavaScript: present and
      non-empty. */
  predicate Truthy(v: Option<string>) {
    v.Some? && v.value != ""
  }

  /** Python's `a or b` and JavaScript's `a || b` on optional strings. */
  function Or(a: Option<string>, b: Option<string>): (r: Option<string>)
    ensures Truthy(a) ==> r == a
    ensures !Truthy(a) ==> r == b
  {
    if Truthy(a) then a else b
  }

  /** `a or d` (`a || d`) where the fallback d is a plain string. */
  function OrElse(a: Option<string>, d: string): (r: string)
    ensures Truthy(a) ==> r == a.value
    ensures !Truthy(a) ==> r == d
  {
    if Truthy(a) then a.value else d
  }

  /** JavaScript's labelOrUri(binding, labelKey, uriKey) and the Python
      `binding_val(r, labelKey) or binding_val(r, uriKey)`: the label when it
      is bound to a non-empty text, otherwise whatever the IRI variable holds. */
  function LabelOrUri(r: Row, labelKey: string, uriKey: string): (v: Option<string>)
    ensures labelKey in r && r[labelKey] != "" ==> v == Some(r[labelKey])
    ensures !(labelKey in r && r[labelKey] != "") ==> v == Val(r, uriKey)
    ensures v.Some? ==> (labelKey in r && v.value == r[labelKey]) || (uriKey in r && v.value == r[uriKey])
  {
    Or(Val(r, labelKey), Val(r, uriKey))
  }

  /** One search result: the matched resource and its display label. */
  datatype SearchHit = SearchHit(uri: Option<string>, labelText: Option<string>)

  /** One rdf:type of an entity with its display label. */
  datatype TypeRef = TypeRef(uri: Option<string>, labelText: Option<string>)

  /** An outgoing triple <entity> predicate object, with display labels. */
  datatype OutRel = OutRel(predicateIri: Option<string>, predicateLabel: Option<string>,
                           objectIri: Option<string>, objectLabel: Option<string>)

  /** An incoming triple subject predicate <entity>, with display labels. */
  datatype InRel = InRel(subjectIri: Option<string>, subjectLabel: Option<string>,
                         predicateIri: Option<string>, predicateLabel: Option<string>)

  /** The assembled view of one entity (Python's "outgoing"/"incoming" keys are
      JavaScript's outgoingRels/incomingRels).

      Field names: `label`, `predicate` and `object` are Dafny keywords, so the
      source's `label` is `labelText` here and its IRI-valued `subject`,
      `predicate` and `object` are `subjectIri`, `predicateIri`, `objectIri`. */
  datatype EntityView = EntityView(labelText: string, comment: string, types: seq<TypeRef>,
                                   outgoing: seq<OutRel>, incoming: seq<InRel>)

  /** The row mappers both explorers apply, one record per row. */
  function HitOf(r: Row): SearchHit {
    SearchHit(Val(r, "uri"), LabelOrUri(r, "label", "uri"))
  }

  function TypeOf(r: Row): TypeRef {
    TypeRef(Val(r, "type"), LabelOrUri(r, "typeLabel", "type"))
  }

  function OutRelOf(r: Row): OutRel {
    OutRel(Val(r, "p"), LabelOrUri(r, "pLabel", "p"), Val(r, "o"), LabelOrUri(r, "oLabel", "o"))
  }

  function InRelOf(r: Row): InRel {
    InRel(Val(r, "s"), LabelOrUri(r, "sLabel", "s"), Val(r, "p"), LabelOrUri(r, "pLabel", "p"))
  }

  function MapHits(rows: seq<Row>): (hits: seq<SearchHit>)
    ensures |hits| == |rows| && forall i :: 0 <= i < |rows| ==> hits[i] == HitOf(rows[i])
  {
    seq(|rows|, i requires 0 <= i < |rows| => HitOf(rows[i]))
  }

  function MapOut(rows: seq<Row>): (rels: seq<OutRel>)
    ensures |rels| == |rows| && forall i :: 0 <= i < |rows| ==> rels[i] == OutRelOf(rows[i])
  {
    seq(|rows|, i requires 0 <= i < |rows| => OutRelOf(rows[i]))
  }

  function MapIn(rows: seq<Row>): (rels: seq<InRel>)
    ensures |rels| == |rows| && forall i :: 0 <= i < |rows| ==> rels[i] == InRelOf(rows[i])
  {
    seq(|rows|, i requires 0 <= i < |rows| => InRelOf(rows[i]))
  }

  /** What one SPARQL request gives back: the result rows, or the failure the
      transport raised (HTTP error status, unreadable body, network error). */
  datatype Fetched = Rows(rows: seq<Row>) | Failed(reason: string)

  /** The endpoint as the explorers see it: query text in, rows or failure
      out. Being a function, it answers the same query the same way, which is
      the "unchanged dataset" under which requests are compared. */
  type Endpoint = string -> Fetched
}
