/** Filtering attribute values by pattern. A pattern is the predicate "this value matches". */
module ValueFilters {
  type Pattern = string -> bool
  type Attributes = map<string, seq<string>>
  type AttributeFilters = map<string, Pattern>

  /** By provider, requester and attribute; an empty key is a default that applies as well. */
  type Filters = map<string, map<string, AttributeFilters>>

  type Selection = (string, string) -> bool

  /** `retain`: the values that satisfy `p`, in order. */
  function Retain(vs: seq<string>, p: Pattern): seq<string> {
    if vs == [] then []
    else
      var k := |vs| - 1;
      Retain(vs[..k], p) + (if p(vs[k]) then [vs[k]] else [])
  }

  lemma {:induction false} RetainTwice(vs: seq<string>, p: Pattern, q: Pattern, both: Pattern)
    requires forall v :: both(v) <==> p(v) && q(v)
    ensures Retain(Retain(vs, p), q) == Retain(vs, both)
  {
    if vs != [] {
      var k := |vs| - 1;
      RetainTwice(vs[..k], p, q, both);
      var r := Retain(vs[..k], p);
      assert (r + [vs[k]])[..|r|] == r;
      assert r + [] == r;
    }
  }

  /** Every matching value stays as often as it occurred, and no other value stays. */
  lemma {:induction false} RetainKeepsCounts(vs: seq<string>, p: Pattern, v: string)
    ensures multiset(Retain(vs, p))[v] == if p(v) then multiset(vs)[v] else 0
  {
    if vs != [] {
      var k := |vs| - 1;
      RetainKeepsCounts(vs[..k], p, v);
      assert vs == vs[..k] + [vs[k]];
      CountPush(vs[..k], vs[k], v);
      if p(vs[k]) {
        CountPush(Retain(vs[..k], p), vs[k], v);
      } else {
        assert Retain(vs, p) == Retain(vs[..k], p);
      }
    }
  }

  lemma CountPush(vs: seq<string>, x: string, v: string)
    ensures multiset(vs + [x])[v] == multiset(vs)[v] + (if x == v then 1 else 0)
  {
  }

  /** The attributes with only the selected values; an attribute left without values stays. */
  ghost predicate Selected(before: Attributes, keep: Selection, after: Attributes) {
    && after.Keys == before.Keys
    && forall n <- before :: after[n] == Retain(before[n], v => keep(n, v))
  }

  /** Selecting twice is selecting what both selections keep, in either order. */
  lemma SelectTwice(a: Attributes, p: Selection, b: Attributes, q: Selection, c: Attributes, both: Selection)
    requires Selected(a, p, b) && Selected(b, q, c)
    requires forall n, v :: both(n, v) <==> p(n, v) && q(n, v)
    ensures Selected(a, both, c)
  {
    forall n <- a ensures c[n] == Retain(a[n], v => both(n, v)) {
      RetainTwice(a[n], v => p(n, v), v => q(n, v), v => both(n, v));
    }
  }

  lemma SelectAll(a: Attributes)
    ensures Selected(a, (n, v) => true, a)
  {
    var all: Selection := (n, v) => true;
    forall n <- a ensures a[n] == Retain(a[n], v => all(n, v)) {
      RetainAll(a[n]);
      RetainSame(a[n], v => true, v => all(n, v));
    }
  }

  lemma {:induction false} RetainAll(vs: seq<string>)
    ensures Retain(vs, v => true) == vs
  {
    if vs != [] {
      RetainAll(vs[..|vs| - 1]);
      assert vs == vs[..|vs| - 1] + [vs[|vs| - 1]];
    }
  }

  lemma SelectSame(a: Attributes, p: Selection, b: Attributes, q: Selection)
    requires Selected(a, p, b) && forall n, v :: p(n, v) <==> q(n, v)
    ensures Selected(a, q, b)
  {
    forall n <- a ensures b[n] == Retain(a[n], v => q(n, v)) {
      RetainSame(a[n], v => p(n, v), v => q(n, v));
    }
  }

  lemma {:induction false} RetainSame(vs: seq<string>, p: Pattern, q: Pattern)
    requires forall v :: p(v) <==> q(v)
    ensures Retain(vs, p) == Retain(vs, q)
  {
    if vs != [] {
      RetainSame(vs[..|vs| - 1], p, q);
    }
  }

  // ---- One table of attribute filters ----

  /** The value passes the filter of its attribute and the one for every attribute, where there are such. */
  predicate Passes(fs: AttributeFilters, n: string, v: string) {
    ("" in fs ==> fs[""](v)) && (n in fs ==> fs[n](v))
  }

  /** What one entry of the table says about a value. */
  predicate EntryPasses(fs: AttributeFilters, entry: string, n: string, v: string)
    requires entry in fs
  {
    entry == "" || entry == n ==> fs[entry](v)
  }

  /** `apply`, over the table in any order. */
  method ApplyFilters(attributes: Attributes, fs: AttributeFilters) returns (r: Attributes)
    ensures Selected(attributes, (n, v) => Passes(fs, n, v), r)
  {
    r := attributes;
    SelectAll(attributes);
    var left := fs.Keys;
    ghost var keep: Selection := (n, v) => true;
    while left != {}
      invariant left <= fs.Keys
      invariant Selected(attributes, keep, r)
      invariant forall n, v :: keep(n, v) <==> forall e <- fs :: e in left || EntryPasses(fs, e, n, v)
    {
      var entry :| entry in left;
      ghost var before, kept := r, keep;
      r := ApplyEntry(r, entry, fs[entry]);
      ghost var rule: Selection := (n, v) => entry == "" || entry == n ==> fs[entry](v);
      keep := (n, v) => kept(n, v) && rule(n, v);
      SelectTwice(attributes, kept, before, rule, r, keep);
      left := left - {entry};
    }
    PassesIsEveryEntry(fs);
    SelectSame(attributes, keep, r, (n, v) => Passes(fs, n, v));
  }

  lemma PassesIsEveryEntry(fs: AttributeFilters)
    ensures forall n, v :: Passes(fs, n, v) <==> forall e <- fs :: EntryPasses(fs, e, n, v)
  {
    forall n, v ensures Passes(fs, n, v) <==> forall e <- fs :: EntryPasses(fs, e, n, v) {
      if forall e <- fs :: EntryPasses(fs, e, n, v) {
        assert "" in fs ==> EntryPasses(fs, "", n, v);
        assert n in fs ==> EntryPasses(fs, n, n, v);
      }
    }
  }

  method ApplyEntry(attributes: Attributes, entry: string, p: Pattern) returns (r: Attributes)
    ensures Selected(attributes, (n, v) => entry == "" || entry == n ==> p(v), r)
  {
    ghost var rule: Selection := (n, v) => entry == "" || entry == n ==> p(v);
    if entry == "" {
      r := map n | n in attributes :: Retain(attributes[n], p);
      forall n <- attributes ensures r[n] == Retain(attributes[n], v => rule(n, v)) {
        RetainSame(attributes[n], p, v => rule(n, v));
      }
    } else {
      r := if entry in attributes then attributes[entry := Retain(attributes[entry], p)] else attributes;
      forall n <- attributes ensures r[n] == Retain(attributes[n], v => rule(n, v)) {
        if n == entry {
          RetainSame(attributes[n], p, v => rule(n, v));
        } else {
          RetainAll(attributes[n]);
          RetainSame(attributes[n], v => true, v => rule(n, v));
        }
      }
    }
  }

  // ---- The whole service ----

  /** Every table that applies to this provider and requester lets the value pass. */
  predicate Keeps(filters: Filters, provider: string, requester: string, n: string, v: string) {
    forall pk <- ["", provider], rk <- ["", requester] ::
      pk in filters && rk in filters[pk] ==> Passes(filters[pk][rk], n, v)
  }

  function KeysFor(name: string): seq<string> {
    if name == "" then [""] else ["", name]
  }

  /** `process_response`: the nested loops keep exactly the values every applicable pattern matches. */
  method FilterResponse(filters: Filters, provider: string, requester: string, attributes: Attributes)
    returns (r: Attributes)
    ensures Selected(attributes, (n, v) => Keeps(filters, provider, requester, n, v), r)
  {
    r := attributes;
    SelectAll(attributes);
    var providers, requesters := KeysFor(provider), KeysFor(requester);
    ghost var keep: Selection := (n, v) => true;
    for i := 0 to |providers|
      invariant Selected(attributes, keep, r)
      invariant forall n, v :: keep(n, v)
                  <==> forall k | 0 <= k < i :: TablePasses(filters, providers[k], requester, n, v)
    {
      if providers[i] !in filters {
        continue;
      }
      ghost var before, kept := r, keep;
      r := FilterForProvider(filters[providers[i]], requester, r);
      ghost var rule: Selection := (n, v) => ProviderPasses(filters[providers[i]], requester, n, v);
      keep := (n, v) => kept(n, v) && rule(n, v);
      SelectTwice(attributes, kept, before, rule, r, keep);
    }
    forall n, v ensures keep(n, v) <==> Keeps(filters, provider, requester, n, v) {
      assert providers[0] == "";
      assert provider != "" ==> providers[1] == provider;
      assert keep(n, v) <==> TablePasses(filters, "", requester, n, v)
                             && TablePasses(filters, provider, requester, n, v);
    }
    SelectSame(attributes, keep, r, (n, v) => Keeps(filters, provider, requester, n, v));
  }

  predicate ProviderPasses(byRequester: map<string, AttributeFilters>, requester: string, n: string, v: string) {
    forall rk <- ["", requester] :: rk in byRequester ==> Passes(byRequester[rk], n, v)
  }

  predicate TablePasses(filters: Filters, pk: string, requester: string, n: string, v: string) {
    pk in filters ==> ProviderPasses(filters[pk], requester, n, v)
  }

  method FilterForProvider(byRequester: map<string, AttributeFilters>, requester: string, attributes: Attributes)
    returns (r: Attributes)
    ensures Selected(attributes, (n, v) => ProviderPasses(byRequester, requester, n, v), r)
  {
    r := attributes;
    SelectAll(attributes);
    var requesters := KeysFor(requester);
    ghost var keep: Selection := (n, v) => true;
    for i := 0 to |requesters|
      invariant Selected(attributes, keep, r)
      invariant forall n, v :: keep(n, v)
                  <==> forall k | 0 <= k < i :: requesters[k] in byRequester ==>
                       Passes(byRequester[requesters[k]], n, v)
    {
      if requesters[i] in byRequester {
        ghost var before, kept := r, keep;
        r := ApplyFilters(r, byRequester[requesters[i]]);
        ghost var rule: Selection := (n, v) => Passes(byRequester[requesters[i]], n, v);
        keep := (n, v) => kept(n, v) && rule(n, v);
        SelectTwice(attributes, kept, before, rule, r, keep);
      }
    }
    forall n, v ensures keep(n, v) <==> ProviderPasses(byRequester, requester, n, v) {
      assert requesters[0] == "";
      assert requester != "" ==> requesters[1] == requester;
    }
    SelectSame(attributes, keep, r, (n, v) => ProviderPasses(byRequester, requester, n, v));
  }

  /** Filtering an already filtered response changes nothing. */
  lemma FilteringIsIdempotent(filters: Filters, provider: string, requester: string,
                             a: Attributes, b: Attributes, c: Attributes)
    requires Selected(a, (n, v) => Keeps(filters, provider, requester, n, v), b)
    requires Selected(b, (n, v) => Keeps(filters, provider, requester, n, v), c)
    ensures c == b
  {
    var keep: Selection := (n, v) => Keeps(filters, provider, requester, n, v);
    SelectTwice(a, keep, b, keep, c, keep);
    forall n <- a ensures c[n] == b[n] {
    }
  }
}

/** Renaming attributes, with values merged into a target that already exists. */
module AttributeRenaming {
  type Attributes = map<string, seq<string>>

  /** One entry of the renaming table. */
  datatype Renaming = Renaming(source: string, target: string)

  function RenameOne(r: Renaming, a: Attributes): Attributes {
    if r.source !in a then a
    else
      var without := a - {r.source};
      without[r.target := (if r.target in without then without[r.target] else []) + a[r.source]]
  }

  /** The table applied entry by entry in its iteration order. */
  function RenameAll(table: seq<Renaming>, a: Attributes): Attributes {
    if table == [] then a
    else RenameOne(table[|table| - 1], RenameAll(table[..|table| - 1], a))
  }

  method Rename(table: seq<Renaming>, attributes: Attributes) returns (r: Attributes)
    ensures r == RenameAll(table, attributes)
  {
    r := attributes;
    for i := 0 to |table|
      invariant r == RenameAll(table[..i], attributes)
    {
      assert table[..i + 1][..i] == table[..i];
      if table[i].source in r {
        var values := r[table[i].source];
        r := r - {table[i].source};
        var existing := if table[i].target in r then r[table[i].target] else [];
        r := r[table[i].target := existing + values];
      }
    }
    assert table[..|table|] == table;
  }

  /** Where the values of an attribute end up: chained entries are followed as far as the order allows. */
  function Destination(table: seq<Renaming>, n: string): string {
    if table == [] then n
    else
      var d := Destination(table[..|table| - 1], n);
      if d == table[|table| - 1].source then table[|table| - 1].target else d
  }

  function ValuesOf(a: Attributes, n: string): seq<string> {
    if n in a then a[n] else []
  }

  /** How often a value occurs under a name. */
  function Copies(a: Attributes, n: string, v: string): nat {
    multiset(ValuesOf(a, n))[v]
  }

  /** How often a value occurs in the listed attributes whose destination is `m`. */
  function Arriving(names: seq<string>, a: Attributes, table: seq<Renaming>, m: string, v: string): nat {
    if names == [] then 0
    else
      var k := |names| - 1;
      Arriving(names[..k], a, table, m, v) + (if Destination(table, names[k]) == m then Copies(a, names[k], v) else 0)
  }

  /** `names` lists every attribute once. */
  ghost predicate Lists(names: seq<string>, a: Attributes) {
    && (forall i, j | 0 <= i < j < |names| :: names[i] != names[j])
    && (forall n :: n in a <==> n in names)
  }

  /**
   * Every attribute's values arrive at its destination and nowhere else: for any table, including
   * chained and self renames, each name holds exactly the values that were sent to it.
   */
  lemma {:induction false} ValuesArrive(names: seq<string>, a: Attributes, table: seq<Renaming>, m: string, v: string)
    requires Lists(names, a)
    ensures Copies(RenameAll(table, a), m, v) == Arriving(names, a, table, m, v)
    decreases |table|
  {
    if table == [] {
      Unmoved(names, a, m, v);
    } else {
      var k := |table| - 1;
      var init, last := table[..k], table[k];
      ValuesArrive(names, a, init, m, v);
      ValuesArrive(names, a, init, last.source, v);
      StepArrives(names, a, init, last, m, v);
      assert init + [last] == table;
      RenameMoves(last, RenameAll(init, a), m, v);
    }
  }

  /** A name is present afterwards exactly when some attribute was sent to it. */
  lemma {:induction false} NamesArrive(a: Attributes, table: seq<Renaming>, m: string)
    ensures m in RenameAll(table, a) <==> exists n <- a :: Destination(table, n) == m
    decreases |table|
  {
    if table == [] {
      assert m in a ==> Destination(table, m) == m;
    } else {
      var k := |table| - 1;
      NamesArrive(a, table[..k], m);
      NamesArrive(a, table[..k], table[k].source);
      assert m in RenameAll(table, a) <==>
          (m in RenameAll(table[..k], a) && m != table[k].source)
          || (table[k].source in RenameAll(table[..k], a) && m == table[k].target);
    }
  }

  /** One entry on the level of values. */
  lemma RenameMoves(r: Renaming, a: Attributes, m: string, v: string)
    ensures Copies(RenameOne(r, a), m, v)
            == if r.source == r.target then Copies(a, m, v)
               else if m == r.source then 0
               else if m == r.target then Copies(a, m, v) + Copies(a, r.source, v)
               else Copies(a, m, v)
  {
    if r.source in a && m == r.target {
      var without := a - {r.source};
      assert ValuesOf(RenameOne(r, a), m) == ValuesOf(without, m) + a[r.source];
      assert r.source == r.target ==> ValuesOf(without, m) == [] && [] + a[r.source] == a[r.source];
    }
  }

  /** One entry on the level of destinations. */
  lemma {:induction false} StepArrives(names: seq<string>, a: Attributes, init: seq<Renaming>, last: Renaming,
                                       m: string, v: string)
    ensures Arriving(names, a, init + [last], m, v)
            == if last.source == last.target then Arriving(names, a, init, m, v)
               else if m == last.source then 0
               else if m == last.target then Arriving(names, a, init, m, v) + Arriving(names, a, init, last.source, v)
               else Arriving(names, a, init, m, v)
  {
    if names != [] {
      StepArrives(names[..|names| - 1], a, init, last, m, v);
      assert (init + [last])[..|init|] == init;
    }
  }

  lemma {:induction false} Unmoved(names: seq<string>, a: Attributes, m: string, v: string)
    requires forall i, j | 0 <= i < j < |names| :: names[i] != names[j]
    ensures Arriving(names, a, [], m, v) == if m in names then Copies(a, m, v) else 0
  {
    if names != [] {
      var k := |names| - 1;
      Unmoved(names[..k], a, m, v);
      assert names == names[..k] + [names[k]];
    }
  }

  // ---- Conservation ----

  /** How often a value occurs under the listed names together. */
  function Total(names: seq<string>, a: Attributes, v: string): nat {
    if names == [] then 0
    else Total(names[..|names| - 1], a, v) + Copies(a, names[|names| - 1], v)
  }

  predicate Covers(names: seq<string>, a: Attributes, table: seq<Renaming>) {
    && (forall i, j | 0 <= i < j < |names| :: names[i] != names[j])
    && (forall n <- a :: n in names)
    && (forall r <- table :: r.source in names && r.target in names)
  }

  /** No value is lost, none is duplicated and none appears, for every table in every order. */
  lemma {:induction false} RenamingConserves(names: seq<string>, a: Attributes, table: seq<Renaming>, v: string)
    requires Covers(names, a, table)
    ensures Total(names, RenameAll(table, a), v) == Total(names, a, v)
    ensures forall n <- RenameAll(table, a) :: n in names
    decreases |table|
  {
    if table != [] {
      var k := |table| - 1;
      assert table == table[..k] + [table[k]];
      RenamingConserves(names, a, table[..k], v);
      RenameOneConserves(names, table[k], RenameAll(table[..k], a), v);
    }
  }

  lemma RenameOneConserves(names: seq<string>, r: Renaming, a: Attributes, v: string)
    requires forall i, j | 0 <= i < j < |names| :: names[i] != names[j]
    requires r.source in names && r.target in names
    ensures Total(names, RenameOne(r, a), v) == Total(names, a, v)
  {
    if r.source in a {
      var without := a - {r.source};
      TotalAt(names, a, without, r.source, v);
      TotalAt(names, RenameOne(r, a), without, r.target, v);
      assert ValuesOf(RenameOne(r, a), r.target) == ValuesOf(without, r.target) + a[r.source];
    }
  }

  /** Two maps that differ at one listed name differ in their totals by the values there. */
  lemma {:induction false} TotalAt(names: seq<string>, a: Attributes, b: Attributes, n: string, v: string)
    requires forall i, j | 0 <= i < j < |names| :: names[i] != names[j]
    requires forall m | m != n :: ValuesOf(a, m) == ValuesOf(b, m)
    ensures Total(names, a, v) - Total(names, b, v) == if n in names then Copies(a, n, v) - Copies(b, n, v) else 0
  {
    if names != [] {
      var k := |names| - 1;
      TotalAt(names[..k], a, b, n, v);
      assert names == names[..k] + [names[k]];
    }
  }
}
