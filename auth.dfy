/**
 * The API-key header parser (`GetAPIKey`). It receives the value of the
 * `x-api-key` header (what `http.Header.Get` returns, "" when the header is
 * absent) and expects it to read `ApiKey <key>`.
 */
module Auth {
  import opened Wrappers
  import opened GoStrings

  /** The three ways a header value is refused, in the order they are checked. */
  datatype AuthError = NoAuthInfo | MalformedHeader | MalformedFirstPart

  /** The text of the error each refusal carries. */
  function Message(e: AuthError): string
  {
    match e
    case NoAuthInfo => "no auth info found"
    case MalformedHeader => "malformed auth header"
    case MalformedFirstPart => "malformed first part of auth header"
  }

  /** A caller that only sees the error text can still tell the three refusals apart. */
  lemma MessageInjective(a: AuthError, b: AuthError)
    ensures Message(a) == Message(b) <==> a == b
  {
  }

  /** Go's `(string, error)` pair: `err == None` stands for a nil error. */
  datatype KeyResult = KeyResult(key: string, err: Option<AuthError>)

  /** The word that must precede the key. */
  const Scheme: string := "ApiKey"

  /**
   * Parses a header value. The error cases are tested in a fixed order
   * (empty value, then number of space-separated parts, then the scheme
   * word), every error comes with an empty key, and a returned key is the
   * rest of the value after "ApiKey " and contains no space.
   */
  function GetAPIKey(val: string): (r: KeyResult)
    ensures r.err.Some? ==> r.key == ""
    ensures r.err == Some(NoAuthInfo) <==> val == ""
    ensures r.err == Some(MalformedHeader) <==> val != "" && multiset(val)[' '] != 1
    ensures r.err == Some(MalformedFirstPart) <==> multiset(val)[' '] == 1 && !(Scheme + " " <= val)
    ensures r.err.None? ==> ' ' !in r.key && val == Scheme + " " + r.key
  {
    if val == "" then KeyResult("", Some(NoAuthInfo))
    else
      var vals := Split(val, ' ');
      if |vals| != 2 then KeyResult("", Some(MalformedHeader))
      else if vals[0] != Scheme then
        PrefixMeansScheme(val);
        KeyResult("", Some(MalformedFirstPart))
      else
        JoinSplit(val, ' ');
        assert Join(vals, ' ') == vals[0] + [' '] + vals[1];
        KeyResult(vals[1], None)
  }

  /** When the value starts with "ApiKey ", the first part of its split is "ApiKey". */
  lemma PrefixMeansScheme(val: string)
    ensures Scheme + " " <= val ==> Split(val, ' ')[0] == Scheme
  {
    if Scheme + " " <= val {
      var rest := val[|Scheme| + 1..];
      assert val == Scheme + [' '] + rest;
      SplitAtFirstSeparator(Scheme, rest, ' ');
    }
  }

  /** Round trip: any space-free key, written after "ApiKey ", is accepted and returned as is (the empty key included). */
  lemma RoundTrip(k: string)
    requires ' ' !in k
    ensures GetAPIKey(Scheme + " " + k) == KeyResult(k, None)
  {
    var val := Scheme + " " + k;
    assert multiset(val) == multiset(Scheme) + multiset{' '} + multiset(k);
    var r := GetAPIKey(val);
    assert Scheme + " " <= val;
    assert val[|Scheme| + 1..] == k;
  }
}
