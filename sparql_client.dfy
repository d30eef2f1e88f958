/** The browser explorer's SPARQL client (sparqlClient.js): its fixed
    language and limits, its four query templates, and searchEntities and
    getEntityDetails once the rows are in. The transport (runQuery: POST,
    HTTP status check, JSON body) is the abstract endpoint. */
module SparqlClient {
  import opened Text
  import opened SparqlLexer
  import opened Escape
  import opened Bindings
  import opened QueryText
  import Explorer

  /** LANG, LIMIT_SEARCH and LIMIT_RELATIONS. */
  const Lang := "en"
  const LimitSearch: nat := 20
  const LimitRelations: nat := 50

  // ---------------------------------------------------------------------------
  // Query templates
  // ---------------------------------------------------------------------------

  /** Every template starts on a fresh line after the backtick and ends with a
      line feed and the two spaces that indent the closing backtick. */
  const Prefix := "\n    PREFIX rdfs: <http://www.w3.org/2000/01/rdf-schema#>\n"
  const Close := "\n  "

  const SearchHead := Prefix + "    SELECT ?uri ?label WHERE {\n      ?uri rdfs:label ?label .\n      FILTER (langMatches(lang(?label), "
  const SearchMid := "))\n      FILTER (CONTAINS(LCASE(STR(?label)), LCASE("
  const SearchTail := ")))\n    } LIMIT "

  /** q.search: the term, its quotes escaped, inside a CONTAINS filter over
      lower-cased labels in language "en", at most 20 rows. */
  function QuerySearch(term: string): string {
    SearchHead + "\"" + Lang + "\"" + SearchMid + "\"" + EscapeQuotes(term) + "\"" + SearchTail + NatToString(LimitSearch) + Close
  }

  const DetailsHead := Prefix + "    PREFIX rdf:  <http://www.w3.org/1999/02/22-rdf-syntax-ns#>\n"
    + "    SELECT ?label ?comment ?type ?typeLabel WHERE {\n      OPTIONAL { "
  const DetailsLabel := " rdfs:label ?label FILTER (langMatches(lang(?label), \""
  const DetailsComment := " rdfs:comment ?comment FILTER (langMatches(lang(?comment), \""
  const DetailsType := " rdf:type ?type . OPTIONAL { ?type rdfs:label ?typeLabel FILTER (langMatches(lang(?typeLabel), \""
  const OptionalClose := "\")) }\n      OPTIONAL { "
  const DetailsTail := "\")) } }\n    } LIMIT "

  /** q.entityDetails: label, comment and types of the entity, the IRI
      spliced raw into all three patterns, at most 50 rows. */
  function QueryDetails(uri: string): string {
    DetailsHead + IriRef(uri) + DetailsLabel + Lang + OptionalClose
    + IriRef(uri) + DetailsComment + Lang + OptionalClose
    + IriRef(uri) + DetailsType + Lang + DetailsTail + NatToString(LimitRelations) + Close
  }

  const OutgoingHead := Prefix + "    SELECT ?p ?pLabel ?o ?oLabel WHERE {\n      "
  const OutgoingWhere := " ?p ?o .\n      FILTER (isIRI(?o))\n      OPTIONAL { ?p rdfs:label ?pLabel FILTER (langMatches(lang(?pLabel), \""
  const OutgoingMid := "\")) }\n      OPTIONAL { ?o rdfs:label ?oLabel FILTER (langMatches(lang(?oLabel), \""
  const IncomingHead := Prefix + "    SELECT ?s ?sLabel ?p ?pLabel WHERE {\n      ?s ?p "
  const IncomingWhere := " .\n      FILTER (isIRI(?s))\n      OPTIONAL { ?p rdfs:label ?pLabel FILTER (langMatches(lang(?pLabel), \""
  const IncomingMid := "\")) }\n      OPTIONAL { ?s rdfs:label ?sLabel FILTER (langMatches(lang(?sLabel), \""
  const RelationsTail := "\")) }\n    } LIMIT "

  /** q.outgoing: triples <uri> ?p ?o with an IRI object, at most 50. */
  function QueryOutgoing(uri: string): string {
    OutgoingHead + IriRef(uri) + OutgoingWhere + Lang + OutgoingMid + Lang + RelationsTail + NatToString(LimitRelations) + Close
  }

  /** q.incoming: triples ?s ?p <uri> with an IRI subject, at most 50. */
  function QueryIncoming(uri: string): string {
    IncomingHead + IriRef(uri) + IncomingWhere + Lang + IncomingMid + Lang + RelationsTail + NatToString(LimitRelations) + Close
  }

  /** term.replace(/"/g, '\\"') puts a backslash before every quote and
      nothing else, so a term without backslash, line feed or carriage
      return is read back as one string literal whose value is the term. */
  lemma SearchTermLiteral(term: string)
    requires LiteralSafe(term)
    ensures LiteralBody(QuerySearch(term)[|SearchHead| + |Lang| + |SearchMid| + 3..]) == Some((term, |EscapeQuotes(term)|))
  {
    TermLiteralIn(SearchHead, Lang, SearchMid, term, SearchTail, NatToString(LimitSearch), Close);
  }

  /** Counterexample to the escaper: a term starting with backslash-quote
      ends the literal after those two characters. */
  lemma SearchTermBreaksOut(t: string)
    ensures LiteralBody(QuerySearch("\\\"" + t)[|SearchHead| + |Lang| + |SearchMid| + 3..]) == Some(("\\", 2))
  {
    TermBreaksOutIn(SearchHead, Lang, SearchMid, t, SearchTail, NatToString(LimitSearch), Close);
  }

  /** Counterexample to the escaper: a term ending in a backslash leaves the
      literal unterminated. */
  lemma SearchTermUnterminated(a: string)
    requires LiteralSafe(a)
    ensures LiteralBody(QuerySearch(a + "\\")[|SearchHead| + |Lang| + |SearchMid| + 3..]).None?
  {
    SearchTailOpens();
    TermUnterminatedIn(SearchHead, Lang, SearchMid, a, SearchTail, NatToString(LimitSearch), Close);
  }

  lemma SearchTailOpens()
    ensures |SearchTail| >= 4 && NoLiteralSpecials(SearchTail[..3]) && SearchTail[3] == '\n'
  {
    assert SearchTail[..3] == ")))";
  }

  /** The language filter of the search query compares with the literal "en". */
  lemma SearchLang(term: string)
    ensures LiteralBody(QuerySearch(term)[|SearchHead| + 1..]) == Some((Lang, 2))
  {
    LangLiteralIn(SearchHead, Lang, SearchMid, EscapeQuotes(term), SearchTail, NatToString(LimitSearch), Close);
  }

  /** The search query asks for at most 20 rows, the other three for 50. */
  lemma SearchLimit(term: string)
    ensures LimitOf(QuerySearch(term)) == Some(20)
  {
    LimitRendered(SearchHead + "\"" + Lang + "\"" + SearchMid + "\"" + EscapeQuotes(term) + "\"" + SearchTail, LimitSearch, Close);
  }

  lemma DetailsLimit(uri: string)
    ensures LimitOf(QueryDetails(uri)) == Some(50)
  {
    LimitRendered(DetailsHead + IriRef(uri) + DetailsLabel + Lang + OptionalClose
      + IriRef(uri) + DetailsComment + Lang + OptionalClose
      + IriRef(uri) + DetailsType + Lang + DetailsTail, LimitRelations, Close);
  }

  lemma OutgoingLimit(uri: string)
    ensures LimitOf(QueryOutgoing(uri)) == Some(50)
  {
    LimitRendered(OutgoingHead + IriRef(uri) + OutgoingWhere + Lang + OutgoingMid + Lang + RelationsTail, LimitRelations, Close);
  }

  lemma IncomingLimit(uri: string)
    ensures LimitOf(QueryIncoming(uri)) == Some(50)
  {
    LimitRendered(IncomingHead + IriRef(uri) + IncomingWhere + Lang + IncomingMid + Lang + RelationsTail, LimitRelations, Close);
  }

  lemma DetailsStart(uri: string)
    ensures QueryDetails(uri)[..|DetailsHead| + |uri| + 2] == DetailsHead + IriRef(uri)
  {
    TakeHead(DetailsHead + IriRef(uri), DetailsLabel, Lang, OptionalClose, IriRef(uri), DetailsComment, Lang,
             OptionalClose, IriRef(uri), DetailsType, Lang, DetailsTail, NatToString(LimitRelations), Close);
  }

  /** The entity IRI is spliced raw between '<' and '>': each of the three
      entity queries reads it back as one IRI reference ending where the
      splice ends if and only if every character is allowed by IRIREF. */
  lemma DetailsIri(uri: string)
    ensures IriEnd(QueryDetails(uri)[|DetailsHead| + 1..]) == Some(|uri|) <==> IriClean(uri)
  {
    DetailsStart(uri);
    IriAfterPrefix(QueryDetails(uri), DetailsHead, uri);
  }

  lemma OutgoingIri(uri: string)
    ensures IriEnd(QueryOutgoing(uri)[|OutgoingHead| + 1..]) == Some(|uri|) <==> IriClean(uri)
  {
    var q := QueryOutgoing(uri);
    assert q[..|OutgoingHead| + |uri| + 2] == OutgoingHead + IriRef(uri);
    IriAfterPrefix(q, OutgoingHead, uri);
  }

  lemma IncomingIri(uri: string)
    ensures IriEnd(QueryIncoming(uri)[|IncomingHead| + 1..]) == Some(|uri|) <==> IriClean(uri)
  {
    var q := QueryIncoming(uri);
    assert q[..|IncomingHead| + |uri| + 2] == IncomingHead + IriRef(uri);
    IriAfterPrefix(q, IncomingHead, uri);
  }

  /** Counterexample to the raw splice: an IRI holding '>' ends the IRI
      reference at that character. */
  lemma DetailsIriClosesEarly(a: string, b: string)
    requires IriClean(a)
    ensures IriEnd(QueryDetails(a + ">" + b)[|DetailsHead| + 1..]) == Some(|a|)
  {
    DetailsStart(a + ">" + b);
    IriBreaksAfterPrefix(QueryDetails(a + ">" + b), DetailsHead, a, b);
  }

  // ---------------------------------------------------------------------------
  // Fetching and assembling
  // ---------------------------------------------------------------------------

  /** searchEntities: a term that is empty once trimmed gives no hits and
      sends no query (the result does not depend on the endpoint); any other
      term is trimmed, searched for, and each row becomes one hit. */
  function SearchEntities(endpoint: Endpoint, term: string): (r: Result<seq<SearchHit>, string>)
    ensures AllJsWhitespace(term) ==> r == Success([])
    ensures !AllJsWhitespace(term) ==> (r.Failure? <==> endpoint(QuerySearch(Trim(term))).Failed?)
    ensures r.Failure? ==> r.error == endpoint(QuerySearch(Trim(term))).reason
    ensures !AllJsWhitespace(term) && r.Success? ==>
      |r.value| == |endpoint(QuerySearch(Trim(term))).rows| &&
      forall i :: 0 <= i < |r.value| ==> r.value[i] == HitOf(endpoint(QuerySearch(Trim(term))).rows[i])
  {
    var t := Trim(term);
    if t == [] then Success([])
    else match endpoint(QuerySearch(t))
      case Failed(reason) => Failure(reason)
      case Rows(rows) => Success(MapHits(rows))
  }

  /** Surrounding whitespace never changes a search. */
  lemma SearchIgnoresSurroundingSpace(endpoint: Endpoint, term: string)
    ensures SearchEntities(endpoint, term) == SearchEntities(endpoint, Trim(term))
  {
    TrimIdempotent(term);
    SearchSameTrim(endpoint, term, Trim(term));
  }

  /** Two terms that trim alike search alike. */
  lemma SearchSameTrim(endpoint: Endpoint, a: string, b: string)
    requires Trim(a) == Trim(b)
    ensures SearchEntities(endpoint, a) == SearchEntities(endpoint, b)
  {
  }

  /** details.map(...): one type reference per details row, typed or not. */
  function MapTypes(rows: seq<Row>): (ts: seq<TypeRef>)
    ensures |ts| == |rows| && forall i :: 0 <= i < |rows| ==> ts[i] == TypeOf(rows[i])
  {
    seq(|rows|, i requires 0 <= i < |rows| => TypeOf(rows[i]))
  }

  /** .filter(t => t.uri): the references whose IRI is bound and non-empty,
      in order. */
  function KeepTyped(ts: seq<TypeRef>): (kept: seq<TypeRef>)
    ensures |kept| <= |ts|
    ensures forall k :: 0 <= k < |kept| ==> Truthy(kept[k].uri)
    decreases |ts|
  {
    if ts == [] then []
    else
      var last := ts[|ts| - 1];
      KeepTyped(ts[..|ts| - 1]) + (if Truthy(last.uri) then [last] else [])
  }

  /** Mapping every row and then filtering gives the same types as the
      Python page's filtering comprehension. */
  lemma {:induction false} TypesAgree(rows: seq<Row>)
    ensures KeepTyped(MapTypes(rows)) == Explorer.TypesOf(rows)
    decreases |rows|
  {
    if rows != [] {
      var n := |rows| - 1;
      TypesAgree(rows[..n]);
      assert MapTypes(rows)[..n] == MapTypes(rows[..n]);
    }
  }

  /** getEntityDetails once the three row sets are in. The label is
      labelOrUri(first, "label", null) || uri: JavaScript turns the null key
      into the property name "null", so a row binding a variable named ?null
      supplies the label when ?label does not. */
  function AssembleDetails(uri: string, details: seq<Row>, outgoing: seq<Row>, incoming: seq<Row>): (v: EntityView)
    ensures details != [] && Truthy(Val(details[0], "label")) ==> v.labelText == details[0]["label"]
    ensures details != [] && !Truthy(Val(details[0], "label")) && Truthy(Val(details[0], "null")) ==>
      v.labelText == details[0]["null"]
    ensures (details == [] || (!Truthy(Val(details[0], "label")) && !Truthy(Val(details[0], "null")))) ==>
      v.labelText == uri
    ensures v.comment == (if details != [] && "comment" in details[0] then details[0]["comment"] else "")
    ensures v.types == Explorer.TypesOf(details)
    ensures |v.outgoing| == |outgoing| && forall i :: 0 <= i < |outgoing| ==> v.outgoing[i] == OutRelOf(outgoing[i])
    ensures |v.incoming| == |incoming| && forall i :: 0 <= i < |incoming| ==> v.incoming[i] == InRelOf(incoming[i])
  {
    TypesAgree(details);
    var first: Row := if details != [] then details[0] else map[];
    EntityView(OrElse(LabelOrUri(first, "label", "null"), uri), OrElse(Val(first, "comment"), ""),
               KeepTyped(MapTypes(details)), MapOut(outgoing), MapIn(incoming))
  }

  /** Unless the first details row binds a variable named ?null, the browser
      and the Python page build the same entity view from the same rows. */
  lemma AssembleAgrees(uri: string, details: seq<Row>, outgoing: seq<Row>, incoming: seq<Row>)
    requires details == [] || !Truthy(Val(details[0], "null"))
    ensures AssembleDetails(uri, details, outgoing, incoming) == Explorer.AssembleEntity(uri, details, outgoing, incoming)
  {
  }

  /** ... and when it does, they differ: the browser shows the ?null value,
      the Python page the entity IRI. */
  lemma NullKeyLabel(uri: string)
    requires uri != "x"
    ensures AssembleDetails(uri, [map["null" := "x"]], [], []).labelText == "x"
    ensures Explorer.AssembleEntity(uri, [map["null" := "x"]], [], []).labelText == uri
  {
  }

  /** getEntityDetails: the three queries go out together and the view is
      built when all three succeed; when any fails, the call fails with the
      reason of a failed one. */
  function GetEntityDetails(endpoint: Endpoint, uri: string): (r: Result<EntityView, string>)
    ensures r.Success? <==> endpoint(QueryDetails(uri)).Rows? && endpoint(QueryOutgoing(uri)).Rows?
                            && endpoint(QueryIncoming(uri)).Rows?
    ensures r.Failure? ==>
      (endpoint(QueryDetails(uri)).Failed? && r.error == endpoint(QueryDetails(uri)).reason) ||
      (endpoint(QueryOutgoing(uri)).Failed? && r.error == endpoint(QueryOutgoing(uri)).reason) ||
      (endpoint(QueryIncoming(uri)).Failed? && r.error == endpoint(QueryIncoming(uri)).reason)
    ensures r.Success? ==> r.value == AssembleDetails(uri, endpoint(QueryDetails(uri)).rows,
                                                      endpoint(QueryOutgoing(uri)).rows,
                                                      endpoint(QueryIncoming(uri)).rows)
  {
    match (endpoint(QueryDetails(uri)), endpoint(QueryOutgoing(uri)), endpoint(QueryIncoming(uri)))
    case (Rows(details), Rows(outgoing), Rows(incoming)) => Success(AssembleDetails(uri, details, outgoing, incoming))
    case (Failed(reason), _, _) => Failure(reason)
    case (_, Failed(reason), _) => Failure(reason)
    case (_, _, Failed(reason)) => Failure(reason)
  }
}
