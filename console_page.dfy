/** The SPARQL console page (app.py): what execute_sparql does with the
    endpoint's answer once it is in. The HTTP exchange is the input: a
    status, the body text, and the body parsed as JSON or the parser's
    complaint. */
module ConsolePage {
  import opened Text
  import opened Bindings

  /** The parts of a SPARQL JSON results document the page reads; a missing
      head.vars or results.bindings (or a missing head or results object) is
      None. */
  datatype Payload = Payload(vars: Option<seq<string>>, bindings: Option<seq<Row>>)

  datatype Response = Response(status: int, text: string, body: Result<Payload, string>)

  /** The two RuntimeErrors raised after the request went through. */
  datatype ConsoleError = HttpStatus(status: nat, text: string) | InvalidJson(detail: string)

  /** The error message as raised. */
  function Message(e: ConsoleError): string {
    match e
    case HttpStatus(status, text) => "Endpoint returned " + NatToString(status) + ": " + text
    case InvalidJson(detail) => "Invalid JSON response: " + detail
  }

  /** The message of an HTTP error carries the status code in decimal right
      after its fixed opening. */
  lemma StatusInMessage(status: nat, text: string)
    ensures ParseDecimal(Message(HttpStatus(status, text))[18..18 + |NatToString(status)|]) == status
  {
    var d := NatToString(status);
    var m := Message(HttpStatus(status, text));
    assert |"Endpoint returned "| == 18;
    assert m[18..18 + |d|] == d;
    ParseNatToString(status);
  }

  /** The result table: its columns, and one dict per row, keyed by column. */
  datatype Table = Table(columns: seq<string>, rows: seq<map<string, Option<string>>>)

  /** {var: b.get(var, {}).get("value") for var in vars_list}: exactly the
      listed variables, each with its value or None when unbound; anything
      else in the binding is dropped. */
  function ProjectRow(vars: seq<string>, b: Row): (row: map<string, Option<string>>)
    ensures forall v :: v in row <==> v in vars
    ensures forall v :: v in vars ==> row[v] == Val(b, v)
    ensures forall v :: v in vars && v !in b ==> row[v] == None
  {
    map v | v in vars :: Val(b, v)
  }

  function OrEmpty<T>(o: Option<seq<T>>): seq<T> {
    if o.Some? then o.value else []
  }

  /** execute_sparql after the request: a status of 400 or more raises an
      error with that status; an unparsable body raises an error; otherwise
      the table has the listed variables as columns and one projected row
      per binding, in order (none when the bindings are missing or empty). */
  method ExecuteSparql(resp: Response) returns (r: Result<Table, ConsoleError>)
    ensures resp.status >= 400 ==> r == Failure(HttpStatus(resp.status, resp.text))
    ensures resp.status < 400 && resp.body.Failure? ==> r == Failure(InvalidJson(resp.body.error))
    ensures resp.status < 400 && resp.body.Success? ==> r.Success?
    ensures r.Success? ==> r.value.columns == OrEmpty(resp.body.value.vars)
    ensures r.Success? ==> |r.value.rows| == |OrEmpty(resp.body.value.bindings)|
    ensures r.Success? ==> forall i :: 0 <= i < |r.value.rows| ==>
      r.value.rows[i] == ProjectRow(OrEmpty(resp.body.value.vars), OrEmpty(resp.body.value.bindings)[i])
  {
    if resp.status >= 400 {
      return Failure(HttpStatus(resp.status, resp.text));
    }
    if resp.body.Failure? {
      return Failure(InvalidJson(resp.body.error));
    }
    var varsList := OrEmpty(resp.body.value.vars);
    var bindings := OrEmpty(resp.body.value.bindings);
    if bindings == [] {
      return Success(Table(varsList, []));
    }
    var rows: seq<map<string, Option<string>>> := [];
    for i := 0 to |bindings|
      invariant |rows| == i
      invariant forall k :: 0 <= k < i ==> rows[k] == ProjectRow(varsList, bindings[k])
    {
      rows := rows + [ProjectRow(varsList, bindings[i])];
    }
    return Success(Table(varsList, rows));
  }
}
