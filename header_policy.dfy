/** The header rules of the proxy filters stated on values: what the two
    sanitizers leave behind, what a case-insensitive lookup may answer, and
    what copying every header into an injected response produces. */
module HeaderPolicy {
  import opened Text
  import opened Http

  /** Request headers that would let the origin compress the body or answer
      a conditional request with 304. */
  const RequestDropped: set<string> :=
    {"Accept-Encoding", "If-None-Match", "If-Modified-Since", "Upgrade-Insecure-Requests"}

  /** Response headers that would stop injected script from running or
      cross-origin reads from succeeding. */
  const ResponseDropped: set<string> :=
    {"Content-Security-Policy-Report-Only", "Content-Security-Policy",
     "Strict-Transport-Security", "Public-Key-Pins", "Public-Key-Pins-Report-Only",
     "X-Frame-Options", "X-Content-Type-Options", "X-Webkit-Csp",
     "X-Content-Security-Policy", "X-Download-Options",
     "X-Permitted-Cross-Domain-Policies", "X-Xss-Protection"}

  /** Response headers opened to every origin. */
  const ResponseOpened: set<string> :=
    {"Allow-Access-From-Same-Origin", "Access-Control-Allow-Origin",
     "Access-Control-Allow-Methods", "Access-Control-Allow-Headers"}

  /** The headers of a request after the request sanitizer. */
  function SanitizeRequest(m: Fields): (r: Fields)
    ensures forall k :: k in RequestDropped ==> k !in r
    ensures "Pragma" in r && r["Pragma"] == ["no-cache"]
    ensures forall k :: k !in RequestDropped && k != "Pragma" ==>
              (k in r <==> k in m) && (k in m ==> r[k] == m[k])
  {
    (m - RequestDropped)["Pragma" := ["no-cache"]]
  }

  /** The headers of a response after the response sanitizer. */
  function SanitizeResponse(m: Fields): (r: Fields)
    ensures forall k :: k in ResponseDropped ==> k !in r
    ensures forall k :: k in ResponseOpened ==> k in r && r[k] == ["*"]
    ensures forall k :: k !in ResponseDropped && k !in ResponseOpened ==>
              (k in r <==> k in m) && (k in m ==> r[k] == m[k])
  {
    map k | k in (m.Keys - ResponseDropped) + ResponseOpened ::
      if k in ResponseOpened then ["*"] else m[k]
  }

  /** The twelve deletions of the response sanitizer, one after the other. */
  lemma SanitizeResponseDeletes(m: Fields, deleted: Fields)
    requires deleted ==
      m - {"Content-Security-Policy-Report-Only"} - {"Content-Security-Policy"}
        - {"Strict-Transport-Security"} - {"Public-Key-Pins"} - {"Public-Key-Pins-Report-Only"}
        - {"X-Frame-Options"} - {"X-Content-Type-Options"} - {"X-Webkit-Csp"}
        - {"X-Content-Security-Policy"} - {"X-Download-Options"}
        - {"X-Permitted-Cross-Domain-Policies"} - {"X-Xss-Protection"}
    ensures deleted["Allow-Access-From-Same-Origin" := ["*"]]["Access-Control-Allow-Origin" := ["*"]]
              ["Access-Control-Allow-Methods" := ["*"]]["Access-Control-Allow-Headers" := ["*"]]
            == SanitizeResponse(m)
  {
    var r := deleted["Allow-Access-From-Same-Origin" := ["*"]]["Access-Control-Allow-Origin" := ["*"]]
              ["Access-Control-Allow-Methods" := ["*"]]["Access-Control-Allow-Headers" := ["*"]];
    assert deleted.Keys == m.Keys - ResponseDropped;
    assert r.Keys == SanitizeResponse(m).Keys;
  }

  lemma SanitizeRequestIdempotent(m: Fields)
    ensures SanitizeRequest(SanitizeRequest(m)) == SanitizeRequest(m)
  {
    var once := SanitizeRequest(m);
    var twice := SanitizeRequest(once);
    assert twice.Keys == once.Keys;
    assert forall k :: k in once ==> twice[k] == once[k];
  }

  lemma SanitizeResponseIdempotent(m: Fields)
    ensures SanitizeResponse(SanitizeResponse(m)) == SanitizeResponse(m)
  {
    var once := SanitizeResponse(m);
    var twice := SanitizeResponse(once);
    assert twice.Keys == once.Keys;
    assert forall k :: k in once ==> twice[k] == once[k];
  }

  /** Some field whose name matches `name` up to case holds `v` as its first value. */
  ghost predicate HasValueFor(m: Fields, name: string, v: string) {
    exists k :: k in m && Lower(k) == Lower(name) && m[k] != [] && v == m[k][0]
  }

  /** No field whose name matches `name` up to case holds a value. */
  ghost predicate NoValueFor(m: Fields, name: string) {
    forall k :: k in m && Lower(k) == Lower(name) ==> m[k] == []
  }

  /** The answers a case-insensitive lookup of `name` may give: the first
      value held under a matching name, or "" when no matching name holds
      any. Which matching name is reached first depends on the map's
      iteration order. */
  ghost predicate LookupResult(m: Fields, name: string, v: string) {
    HasValueFor(m, name, v) || (v == "" && NoValueFor(m, name))
  }

  /** Keys of `m` that hold at least one value. */
  function NonEmptyKeys(m: Fields): set<string> {
    set k | k in m && m[k] != []
  }

  /** The headers of `init` after `Add(k, v)` for every value `v` of every
      key `k` of `src`, values of one key in their order. */
  function AddedAll(init: Fields, src: Fields): Fields {
    map k | k in init.Keys + NonEmptyKeys(src) :: Values(init, k) + Values(src, k)
  }

  /** Copying loses nothing: every key that had values is present, the
      values already there come first and every copied value follows in its
      original order. */
  lemma AddedAllKeepsValues(init: Fields, src: Fields)
    ensures var r := AddedAll(init, src);
            && (forall k :: k in r <==> k in init || (k in src && src[k] != []))
            && (forall k :: k in init ==> init[k] <= r[k])
            && (forall k :: k in src && src[k] != [] ==>
                  |src[k]| <= |r[k]| && r[k][|r[k]| - |src[k]|..] == src[k])
  {
    var r := AddedAll(init, src);
    forall k | k in src && src[k] != []
      ensures |src[k]| <= |r[k]| && r[k][|r[k]| - |src[k]|..] == src[k]
    {
      assert k in NonEmptyKeys(src);
      assert r[k] == Values(init, k) + src[k];
    }
  }

  /** `Add`ing the values `vs` of one key, one after the other. */
  function AppendValues(m: Fields, key: string, vs: seq<string>): Fields {
    if vs == [] then m else m[key := Values(m, key) + vs]
  }

  /** `Add`ing one more value of the same key. */
  lemma AppendValuesStep(m: Fields, key: string, vs: seq<string>, i: nat)
    requires i < |vs|
    ensures var prev := AppendValues(m, key, vs[..i]);
            prev[key := Values(prev, key) + [vs[i]]] == AppendValues(m, key, vs[..i + 1])
  {
    var prev := AppendValues(m, key, vs[..i]);
    assert vs[..i + 1] == vs[..i] + [vs[i]];
    if i == 0 {
      assert prev == m;
      assert vs[..1] == [vs[0]] && vs[..1] != [];
      assert AppendValues(m, key, vs[..1]) == m[key := Values(m, key) + [vs[0]]];
    } else {
      assert Values(prev, key) == Values(m, key) + vs[..i];
      assert Values(m, key) + vs[..i + 1] == Values(m, key) + vs[..i] + [vs[i]];
    }
  }

  lemma AddedAllNothing(init: Fields, src: Fields)
    ensures AddedAll(init, src - src.Keys) == init
  {
    var none := src - src.Keys;
    assert NonEmptyKeys(none) == {};
    assert forall k :: k in init ==> Values(init, k) + Values(none, k) == init[k];
  }

  lemma AddedAllInsertKeys(init: Fields, done: Fields, key: string, vs: seq<string>)
    requires key !in done
    ensures AppendValues(AddedAll(init, done), key, vs).Keys == AddedAll(init, done[key := vs]).Keys
  {
    if vs == [] {
      assert NonEmptyKeys(done[key := vs]) == NonEmptyKeys(done);
    } else {
      assert NonEmptyKeys(done[key := vs]) == NonEmptyKeys(done) + {key};
    }
  }

  lemma AddedAllInsertAt(init: Fields, done: Fields, key: string, vs: seq<string>, k: string)
    requires key !in done
    requires k in AppendValues(AddedAll(init, done), key, vs) && k in AddedAll(init, done[key := vs])
    ensures AppendValues(AddedAll(init, done), key, vs)[k] == AddedAll(init, done[key := vs])[k]
  {
    if k != key {
      assert Values(done, k) == Values(done[key := vs], k);
    } else if vs != [] {
      assert Values(done, k) == [];
    }
  }

  /** Copying one more key, absent so far, with all its values. */
  lemma AddedAllInsert(init: Fields, done: Fields, key: string, vs: seq<string>)
    requires key !in done
    ensures AppendValues(AddedAll(init, done), key, vs) == AddedAll(init, done[key := vs])
  {
    var got := AppendValues(AddedAll(init, done), key, vs);
    var want := AddedAll(init, done[key := vs]);
    AddedAllInsertKeys(init, done, key, vs);
    forall k | k in got
      ensures got[k] == want[k]
    {
      AddedAllInsertAt(init, done, key, vs, k);
    }
  }

  /** One more pending key of `src` copied with all its values. */
  lemma AddedAllStep(init: Fields, src: Fields, pending: set<string>, key: string)
    requires key in pending && pending <= src.Keys
    ensures AppendValues(AddedAll(init, src - pending), key, src[key])
            == AddedAll(init, src - (pending - {key}))
  {
    assert src - (pending - {key}) == (src - pending)[key := src[key]];
    AddedAllInsert(init, src - pending, key, src[key]);
  }

  /** The headers of an injected response: `Content-Type` holds the new
      content type followed by the original values, every other key holds
      exactly its original values, and keys without values are not copied. */
  lemma {:induction false} InjectedHeaders(contentType: string, src: Fields)
    ensures var r := AddedAll(map["Content-Type" := [contentType]], src);
            && r["Content-Type"] == [contentType] + Values(src, "Content-Type")
            && (forall k :: k != "Content-Type" ==> (k in r <==> k in src && src[k] != []))
            && (forall k :: k != "Content-Type" && k in r ==> r[k] == src[k])
  {
    var r := AddedAll(map["Content-Type" := [contentType]], src);
    AddedAllKeepsValues(map["Content-Type" := [contentType]], src);
    assert "Content-Type" in r;
    forall k | k != "Content-Type" && k in r
      ensures r[k] == src[k]
    {
      assert k in src && src[k] != [];
      assert r[k][|r[k]| - |src[k]|..] == src[k];
    }
  }
}
