/** Extraction of the bearer value from an `Authorization` header. */
module Headers {

  import opened Wrappers
  import opened JsStrings

  /**
   * `authHeader.split(' ')[1]`, kept only when the header and that field are both
   * truthy: a missing or empty header, a header without a space, and an empty second
   * field (`"Bearer"`, `"Bearer  t"`) give `None`.
   */
  function BearerToken(authorization: Option<string>): (token: Option<string>)
    ensures token.Some? ==> token.value != "" && ' ' !in token.value
  {
    if !Truthy(authorization) then None
    else
      var fields := Split(authorization.value, ' ');
      if |fields| < 2 || fields[1] == "" then None else Some(fields[1])
  }

  /** The value of `scheme + " " + token` is `token`, whatever space-led text follows. */
  lemma BearerTokenOf(scheme: string, token: string, rest: string)
    requires ' ' !in scheme && ' ' !in token && token != ""
    requires rest == [] || rest[0] == ' '
    ensures BearerToken(Some(scheme + " " + token + rest)) == Some(token)
  {
    var h := scheme + " " + token + rest;
    var x := [' '] + token + rest;
    assert h == scheme + x;
    SplitPrefix(scheme, x, ' ');
    assert x[1..] == token + rest;
    assert Split(x, ' ') == [[]] + Split(token + rest, ' ');
    SplitPrefix(token, rest, ' ');
    assert Split(rest, ' ')[0] == [] by {
      if rest != [] {
        assert rest[0] == ' ';
      }
    }
    assert token + [] == token;
    assert Split(h, ' ')[1] == token;
  }

  /**
   * Conversely, a bearer value is the text between the header's first space and the
   * next space (or the end of the header).
   */
  lemma BearerTokenLocated(h: string)
    requires BearerToken(Some(h)).Some?
    ensures var token := BearerToken(Some(h)).value;
      var fields := Split(h, ' ');
      var i := |fields[0]|;
      && i + 1 + |token| <= |h|
      && ' ' !in h[..i]
      && h[i] == ' '
      && h[i + 1..i + 1 + |token|] == token
      && (i + 1 + |token| == |h| || h[i + 1 + |token|] == ' ')
  {
    var fields := Split(h, ' ');
    JoinSplit(h, ' ');
    var tail := Join(fields[1..], ' ');
    assert h == fields[0] + [' '] + tail;
    assert fields[1..][0] == fields[1];
    if |fields| == 2 {
      assert tail == fields[1];
    } else {
      assert tail == fields[1] + [' '] + Join(fields[2..], ' ');
    }
  }
}
