/** Fetched pages as the scrapers see them once the HTML is parsed: an HTTP
    status and a body, and the `$('table tr').each(...)` loop every row parser
    is driven by. */
module Pages {
  import opened Wrappers
  import opened JsString

  /** The text of each `<td>` of one table row. */
  type Row = seq<string>

  /** The rows of `table tr`, header row first. */
  type Table = seq<Row>

  /** What a request yields: an HTTP status and the parsed body, or the error
      the HTTP client threw. */
  datatype Response<B> = Response(status: int, body: B) | NetworkError(message: string)

  /** The body of a 200 response; any other status makes the scraper throw
      `Failed to load <what>: <status>`, and a client error is passed on. */
  function Checked<B>(r: Response<B>, what: string): (body: Result<B>)
    ensures body.Ok? <==> r.Response? && r.status == 200
    ensures body.Ok? ==> body.value == r.body
    ensures r.NetworkError? ==> body == Err(r.message)
    ensures r.Response? && r.status != 200 ==>
      body == Err("Failed to load " + what + ": " + IntToString(r.status))
  {
    match r
    case NetworkError(m) => Err(m)
    case Response(status, b) =>
      if status != 200 then Err("Failed to load " + what + ": " + IntToString(status)) else Ok(b)
  }

  /** What a row callback pushes for rows 1 .. n-1: row 0 is the header and is
      skipped, every other row contributes `parse(row)` when that is a value. */
  function Kept<E>(rows: Table, parse: Row -> Option<E>, n: nat): (kept: seq<E>)
    requires n <= |rows|
    ensures |kept| <= if n == 0 then 0 else n - 1
  {
    if n <= 1 then []
    else
      Kept(rows, parse, n - 1) + match parse(rows[n - 1])
                                 case Some(e) => [e]
                                 case None => []
  }

  /** `$('table tr').each((index, row) => { if (index === 0) return; ... })`. */
  method EachRow<E>(rows: Table, parse: Row -> Option<E>) returns (out: seq<E>)
    ensures out == Kept(rows, parse, |rows|)
  {
    out := [];
    var index := 0;
    while index < |rows|
      invariant index <= |rows|
      invariant out == Kept(rows, parse, index)
    {
      if index > 0 {
        match parse(rows[index])
        case Some(e) => out := out + [e];
        case None =>
      }
      index := index + 1;
    }
  }

  /** One more row: the header adds nothing, any other row its value. */
  lemma KeptStep<E>(rows: Table, parse: Row -> Option<E>, n: nat)
    requires n < |rows|
    ensures n > 0 && parse(rows[n]).Some? ==> Kept(rows, parse, n + 1) == Kept(rows, parse, n) + [parse(rows[n]).value]
    ensures n == 0 || parse(rows[n]).None? ==> Kept(rows, parse, n + 1) == Kept(rows, parse, n)
  {
  }

  /** Everything kept comes from a non-header row that parses to it. */
  lemma {:induction false} KeptSound<E>(rows: Table, parse: Row -> Option<E>, n: nat, e: E)
    requires n <= |rows|
    requires e in Kept(rows, parse, n)
    ensures exists i :: 1 <= i < n && parse(rows[i]) == Some(e)
  {
    if n > 1 {
      if e in Kept(rows, parse, n - 1) {
        KeptSound(rows, parse, n - 1, e);
      }
    }
  }

  /** Every non-header row that parses contributes its value. */
  lemma {:induction false} KeptComplete<E>(rows: Table, parse: Row -> Option<E>, n: nat, i: nat)
    requires 1 <= i < n <= |rows|
    requires parse(rows[i]).Some?
    ensures parse(rows[i]).value in Kept(rows, parse, n)
  {
    if i < n - 1 {
      KeptComplete(rows, parse, n - 1, i);
    }
  }

  /** A property every parsed value has holds of everything kept. */
  lemma KeptAll<E>(rows: Table, parse: Row -> Option<E>, n: nat, P: E -> bool)
    requires n <= |rows|
    requires forall r :: parse(r).Some? ==> P(parse(r).value)
    ensures forall e :: e in Kept(rows, parse, n) ==> P(e)
  {
    forall e | e in Kept(rows, parse, n)
      ensures P(e)
    {
      KeptSound(rows, parse, n, e);
    }
  }

  /** Whatever the header row holds, it contributes nothing. */
  lemma {:induction false} KeptIgnoresHeader<E>(rows: Table, parse: Row -> Option<E>, n: nat, header: Row)
    requires 0 < |rows| && n <= |rows|
    ensures Kept(rows[0 := header], parse, n) == Kept(rows, parse, n)
  {
    if n > 1 {
      KeptIgnoresHeader(rows, parse, n - 1, header);
      assert rows[0 := header][n - 1] == rows[n - 1];
    }
  }
}
