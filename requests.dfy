/**
 * The request as the risk-evaluation pipeline sees it: the principal handed
 * over by the authenticator and the normalised request descriptor, with the
 * resource derivation that the policy engine and the detector share.
 */
module Requests {
  import opened JsValues
  import opened Strings

  /**
   * The authenticated principal. Only `id` and `role` are read; an empty `id`
   * is falsy, which the detector treats like a missing principal.
   */
  datatype User = User(id: string, role: string)

  /**
   * The request descriptor: HTTP method, path, body, and the length of
   * `JSON.stringify(body || {})`, which is given rather than computed.
   */
  datatype Request = Request(httpMethod: string, path: string, body: Value, payloadSize: nat)

  /**
   * `path.split('/')[1]`: the text between the first and the second `/`, or
   * `undefined` (None) when the path has no `/` at all.
   */
  function PathResource(path: string): (r: Option<string>)
    ensures r.None? <==> '/' !in path
    ensures r.Some? ==> '/' !in r.value
  {
    SplitHasSeveralParts(path, '/');
    var parts := Split(path, '/');
    if |parts| > 1 then Some(parts[1]) else None
  }

  /**
   * For a path `pre/seg` or `pre/seg/...` the derived resource is `seg`, the
   * second `/`-separated field, even when it is empty (`/` and `//x` give `''`).
   */
  lemma PathResourceIsSecondField(pre: string, seg: string, rest: string)
    requires '/' !in pre && '/' !in seg
    requires rest == [] || rest[0] == '/'
    ensures PathResource(pre + "/" + seg + rest) == Some(seg)
  {
    var tail := "/" + seg + rest;
    assert pre + "/" + seg + rest == pre + tail;
    SplitAfterPlainPrefix(pre, tail, '/');
    assert tail[0] == '/' && tail[1..] == seg + rest;
    assert Split(tail, '/') == [""] + Split(seg + rest, '/');
    SplitAfterPlainPrefix(seg, rest, '/');
    if rest != [] {
      assert Split(rest, '/') == [""] + Split(rest[1..], '/');
    }
    assert Split(rest, '/')[0] == "";
    assert Split(seg + rest, '/')[0] == seg;
  }
}
