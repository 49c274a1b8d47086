/**
 Reading an authorization request of a federation client: the duplicate check and the
 merge of a signed request object into the ordered query parameters.
 */
module RequestObjects {
  import opened Wrappers
  import opened Sessions

  type Params = seq<(string, string)>
  type Claims = map<string, Json>

  const REQUEST := "request"
  const RESOURCE := "resource"
  const CLIENT_ID := "client_id"

  /** A registered client; its keys, when it has any, verify a token and give its claims. */
  datatype Client = Client(clientId: string, verify: Option<string -> Option<Claims>>)

  predicate Has(ps: Params, name: string) {
    exists p <- ps :: p.0 == name
  }

  /** Every parameter of that name carries that value. */
  predicate Agrees(ps: Params, name: string, value: string) {
    forall p <- ps :: p.0 == name ==> p.1 == value
  }

  /** Only the resource indicator may be repeated. */
  predicate DistinctNames(ps: Params) {
    forall i, j | 0 <= i < j < |ps| :: ps[i].0 == ps[j].0 ==> ps[i].0 == RESOURCE
  }

  /** The first name met a second time, over a growing set of the names seen. */
  method FirstDuplicate(ps: Params) returns (r: Option<string>)
    ensures r.None? <==> DistinctNames(ps)
    ensures r.Some? ==> r.value != RESOURCE && exists i, j | 0 <= i < j < |ps| :: ps[i].0 == ps[j].0 == r.value
  {
    var names: set<string> := {};
    for i := 0 to |ps|
      invariant forall n :: n in names <==> n != RESOURCE && exists k | 0 <= k < i :: ps[k].0 == n
      invariant DistinctNames(ps[..i])
    {
      var name := ps[i].0;
      if name != RESOURCE {
        if name in names {
          var k :| 0 <= k < i && ps[k].0 == name;
          return Some(name);
        }
        names := names + {name};
      }
      assert ps[..i + 1] == ps[..i] + [ps[i]];
    }
    assert ps[..|ps|] == ps;
    return None;
  }

  /** The first index of a name, and none when it does not occur. */
  function IndexOf(ps: Params, name: string): (r: Option<nat>)
    ensures r.None? <==> !Has(ps, name)
    ensures r.Some? ==> r.value < |ps| && ps[r.value].0 == name && !Has(ps[..r.value], name)
  {
    if ps == [] then None
    else if ps[0].0 == name then
      assert ps[0] in ps;
      Some(0)
    else
      var r := IndexOf(ps[1..], name);
      assert Has(ps, name) <==> Has(ps[1..], name) by {
        assert ps == [ps[0]] + ps[1..];
      }
      if r.None? then None
      else
        assert ps[..r.value + 1] == [ps[0]] + ps[1..][..r.value];
        Some(r.value + 1)
  }

  function RemoveFirst(ps: Params, name: string): Params {
    match IndexOf(ps, name)
    case None => ps
    case Some(i) => ps[..i] + ps[i + 1..]
  }

  /** The claims may be merged: they name this client and contradict no parameter. */
  predicate Admissible(client: Client, claims: Claims, outer: Params) {
    && CLIENT_ID in claims && claims[CLIENT_ID] == String(client.clientId)
    && forall k <- claims :: claims[k].String? ==> Agrees(outer, k, claims[k].s)
  }

  /** `outer` is kept as an ordered prefix, and every missing string claim is added once after it. */
  ghost predicate Merged(outer: Params, claims: Claims, r: Params) {
    && outer <= r
    && (forall k <- claims :: claims[k].String? ==> Has(r, k) && Agrees(r, k, claims[k].s))
    && (forall i | |outer| <= i < |r| :: r[i].0 in claims && claims[r[i].0] == String(r[i].1) && !Has(outer, r[i].0))
    && (forall i, j | |outer| <= i < j < |r| :: r[i].0 != r[j].0)
  }

  function VerifiedClaims(client: Client, token: string): Option<Claims> {
    if client.verify.Some? then client.verify.value(token) else None
  }

  method UnpackRequestObject(params: Params, client: Client) returns (r: Result<Params, string>)
    ensures !Has(params, REQUEST) ==> r == Ok(params)
    ensures Has(params, REQUEST) ==>
              var outer := RemoveFirst(params, REQUEST);
              var claims := VerifiedClaims(client, params[IndexOf(params, REQUEST).value].1);
              && (r.Ok? <==> claims.Some? && Admissible(client, claims.value, outer))
              && (r.Ok? ==> Merged(outer, claims.value, r.value))
  {
    var index := IndexOf(params, REQUEST);
    if index.None? {
      return Ok(params);
    }
    var token := params[index.value].1;
    var outer := params[..index.value] + params[index.value + 1..];
    if client.verify.None? {
      return Err("client has no keys to verify request object");
    }
    var verified := client.verify.value(token);
    if verified.None? {
      return Err("request object is not valid");
    }
    var claims := verified.value;
    if !(CLIENT_ID in claims && claims[CLIENT_ID].String?) {
      return Err("request object missing client_id");
    }
    if claims[CLIENT_ID].s != client.clientId {
      return Err("request object client_id does not match outer client_id");
    }
    r := Merge(outer, claims);
  }

  /** The merging loop, over the claims in any order. */
  method Merge(outer: Params, claims: Claims) returns (r: Result<Params, string>)
    ensures r.Ok? <==> forall k <- claims :: claims[k].String? ==> Agrees(outer, k, claims[k].s)
    ensures r.Ok? ==> Merged(outer, claims, r.value)
  {
    var params := outer;
    var left := claims.Keys;
    ghost var none: Claims := map[];
    assert claims - left == none;
    while left != {}
      invariant left <= claims.Keys
      invariant Merged(outer, claims - left, params)
      invariant forall k <- claims :: k !in left && claims[k].String? ==> Agrees(outer, k, claims[k].s)
    {
      var k :| k in left;
      assert claims - (left - {k}) == (claims - left)[k := claims[k]];
      if claims[k].String? {
        var s := claims[k].s;
        OnlyOuterMatters(outer, claims - left, params, k, s);
        if !Agrees(params, k, s) {
          return Err("request object parameter conflicts with outer request");
        }
        MergeOne(outer, claims - left, params, k, s);
        if !Has(params, k) {
          params := params + [(k, s)];
        }
      }
      left := left - {k};
    }
    assert claims - {} == claims;
    return Ok(params);
  }

  lemma MergeOne(outer: Params, done: Claims, params: Params, k: string, s: string)
    requires Merged(outer, done, params) && k !in done && Agrees(params, k, s)
    requires Has(params, k) <==> Has(outer, k)
    ensures Merged(outer, done[k := String(s)], if Has(params, k) then params else params + [(k, s)])
  {
    var r := if Has(params, k) then params else params + [(k, s)];
    forall n <- done | done[n].String? ensures Has(r, n) && Agrees(r, n, done[n].s) {
      var p :| p in params && p.0 == n;
      assert p in r;
    }
    if !Has(params, k) {
      assert r[|params|] == (k, s);
    }
  }

  /** Earlier claims have other names, so a claim meets only outer parameters of its own name. */
  lemma OnlyOuterMatters(outer: Params, done: Claims, params: Params, k: string, s: string)
    requires Merged(outer, done, params) && k !in done
    ensures Agrees(params, k, s) <==> Agrees(outer, k, s)
    ensures Has(params, k) <==> Has(outer, k)
  {
    forall p <- params | p.0 == k ensures p in outer {
      var i :| 0 <= i < |params| && params[i] == p;
      if i < |outer| {
        assert outer[i] == p;
      }
    }
    forall p <- outer ensures p in params {
      var i :| 0 <= i < |outer| && outer[i] == p;
      assert params[i] == p;
    }
  }

  /** What a merge contains does not depend on the order in which the claims were visited. */
  lemma MergeContents(outer: Params, claims: Claims, r: Params, name: string, value: string)
    requires Merged(outer, claims, r)
    ensures (name, value) in r
            <==> (name, value) in outer
                 || (!Has(outer, name) && name in claims && claims[name] == String(value))
  {
    if (name, value) in r {
      var i :| 0 <= i < |r| && r[i] == (name, value);
      if i < |outer| {
        assert outer[i] == (name, value);
      }
    }
    if (name, value) in outer {
      var i :| 0 <= i < |outer| && outer[i] == (name, value);
      assert r[i] == (name, value);
    }
    if !Has(outer, name) && name in claims && claims[name] == String(value) {
      assert Has(r, name) && Agrees(r, name, value);
      var p :| p in r && p.0 == name;
      assert p == (name, value);
    }
  }

  lemma RemovalKeepsDistinct(ps: Params, name: string)
    requires DistinctNames(ps) && name != RESOURCE
    ensures DistinctNames(RemoveFirst(ps, name)) && !Has(RemoveFirst(ps, name), name)
    ensures forall p :: p in RemoveFirst(ps, name) <==> p in ps && p.0 != name
  {
    var at := IndexOf(ps, name);
    if at.Some? {
      var i := at.value;
      var r := ps[..i] + ps[i + 1..];
      forall p ensures p in r <==> p in ps && p.0 != name {
        if p in ps && p.0 != name {
          var j :| 0 <= j < |ps| && ps[j] == p;
          assert r[if j < i then j else j - 1] == p;
        }
        if p in r {
          var j :| 0 <= j < |r| && r[j] == p;
          assert p == ps[if j < i then j else j + 1];
        }
      }
    }
  }

  lemma MergeKeepsDistinct(outer: Params, claims: Claims, r: Params)
    requires DistinctNames(outer) && Merged(outer, claims, r)
    ensures DistinctNames(r)
  {
    forall i, j | 0 <= i < j < |r| && r[i].0 == r[j].0 ensures r[i].0 == RESOURCE {
      if j < |outer| {
        assert outer[i] == r[i] && outer[j] == r[j];
      } else if i < |outer| {
        assert outer[i] in outer;
        assert Has(outer, r[j].0);
        assert false;
      }
    }
  }

  /** The name that was removed comes back exactly when the signed claims hold a string under it. */
  lemma RemovedNameReappears(params: Params, claims: Claims, r: Params)
    requires DistinctNames(params) && Merged(RemoveFirst(params, REQUEST), claims, r)
    ensures Has(r, REQUEST) <==> REQUEST in claims && claims[REQUEST].String?
  {
    var outer := RemoveFirst(params, REQUEST);
    assert |REQUEST| == 7 && |RESOURCE| == 8;
    RemovalKeepsDistinct(params, REQUEST);
    if Has(r, REQUEST) {
      var p :| p in r && p.0 == REQUEST;
      MergeContents(outer, claims, r, REQUEST, p.1);
      assert !Has(outer, REQUEST);
    }
  }

  /** An accepted request with such a claim: the nested token stands where the outer one was removed. */
  lemma NestedRequestIsKept(client: Client, params: Params, claims: Claims, nested: string, r: Params)
    requires params == [(CLIENT_ID, client.clientId), (REQUEST, "token")]
    requires claims == map[CLIENT_ID := String(client.clientId), REQUEST := String(nested)]
    requires Merged(RemoveFirst(params, REQUEST), claims, r)
    ensures DistinctNames(params) && Admissible(client, claims, RemoveFirst(params, REQUEST))
    ensures (REQUEST, nested) in r
  {
    assert |CLIENT_ID| == 9 && |REQUEST| == 7;
    var outer := RemoveFirst(params, REQUEST);
    assert IndexOf(params, REQUEST) == Some(1) by {
      assert params[1..] == [(REQUEST, "token")];
    }
    assert outer == [(CLIENT_ID, client.clientId)];
    MergeContents(outer, claims, r, REQUEST, nested);
  }

  datatype Reading =
    | Rejected
    | MissingClientId
    | Accepted(client: Client, params: Params)

  type Clients = string -> Option<Client>

  /** The client the outer parameters name, when it can be found or registered. */
  function NamedClient(params: Params, clients: Clients): Option<Client> {
    match IndexOf(params, CLIENT_ID)
    case None => None
    case Some(i) => clients(params[i].1)
  }

  /**
   * `handle_authorization` up to the parsed request: it accepts exactly the unambiguous requests
   * of a known client whose request object, if any, verifies and contradicts nothing. What it
   * accepts names every parameter but `resource` once, and both client ids agree.
   */
  method ReadRequest(params: Params, clients: Clients) returns (r: Reading)
    ensures r.Accepted? <==>
              && DistinctNames(params)
              && NamedClient(params, clients).Some?
              && (Has(params, REQUEST) ==>
                    var claims := VerifiedClaims(NamedClient(params, clients).value,
                                                 params[IndexOf(params, REQUEST).value].1);
                    && claims.Some?
                    && Admissible(NamedClient(params, clients).value, claims.value, RemoveFirst(params, REQUEST)))
    ensures r.Accepted? ==>
              && Some(r.client) == NamedClient(params, clients)
              && DistinctNames(r.params)
              && RemoveFirst(params, REQUEST) <= r.params
              && (Has(params, REQUEST) ==>
                    && (CLIENT_ID, r.client.clientId) in params
                    && (CLIENT_ID, r.client.clientId) in r.params
                    && Merged(RemoveFirst(params, REQUEST),
                              VerifiedClaims(r.client, params[IndexOf(params, REQUEST).value].1).value, r.params))
              && (!Has(params, REQUEST) ==> r.params == params)
  {
    var duplicate := FirstDuplicate(params);
    if duplicate.Some? {
      return Rejected;
    }
    var id := IndexOf(params, CLIENT_ID);
    if id.None? {
      return MissingClientId;
    }
    var client := clients(params[id.value].1);
    if client.None? {
      return Rejected;
    }
    var unpacked := UnpackRequestObject(params, client.value);
    if unpacked.Err? {
      return Rejected;
    }
    ReadingIsSound(params, id.value, client.value, unpacked.value);
    return Accepted(client.value, unpacked.value);
  }

  lemma ReadingIsSound(params: Params, id: nat, client: Client, r: Params)
    requires DistinctNames(params) && id < |params| && params[id].0 == CLIENT_ID
    requires !Has(params, REQUEST) ==> r == params
    requires Has(params, REQUEST) ==>
               var claims := VerifiedClaims(client, params[IndexOf(params, REQUEST).value].1);
               && claims.Some?
               && Admissible(client, claims.value, RemoveFirst(params, REQUEST))
               && Merged(RemoveFirst(params, REQUEST), claims.value, r)
    ensures DistinctNames(r) && RemoveFirst(params, REQUEST) <= r
    ensures Has(params, REQUEST) ==> params[id].1 == client.clientId && params[id] in r
  {
    if Has(params, REQUEST) {
      var outer := RemoveFirst(params, REQUEST);
      var claims := VerifiedClaims(client, params[IndexOf(params, REQUEST).value].1).value;
      RemovalKeepsDistinct(params, REQUEST);
      MergeKeepsDistinct(outer, claims, r);
      assert |CLIENT_ID| == 9 && |REQUEST| == 7;
      assert params[id] in outer;
      MergeContents(outer, claims, r, params[id].0, params[id].1);
    }
  }
}
