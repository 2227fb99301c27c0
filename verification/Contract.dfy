/**
 Flattening of allOf compositions over a possibly cyclic schema table. The walk is
 depth-first with a shared set of names already visited; the theorem is that it returns
 exactly the property names of every schema reachable through allOf, whatever the cycles.
 */
module Contract {

  datatype Option<+T> = None | Some(value: T)

  datatype Schema = Schema(ref: string, properties: map<string, Schema>, allOf: seq<Schema>)

  type Table = map<string, Schema>

  datatype Spec = Spec(comps: map<string, Table>)

  const PREFIX := "#/components/schemas/"

  function TrimPrefix(ref: string): string {
    if PREFIX <= ref then ref[|PREFIX|..] else ref
  }

  // ----- Reachability through allOf, the independent definition -----

  predicate Inlines(a: Schema, b: Schema) {
    b in a.allOf && b.ref == ""
  }

  /** A reference names a schema by its path under the components, or, written without that path, by its bare name. */
  predicate Names(ref: string, n: string) {
    ref == "#/components/schemas/" + n || (ref == n && !("#/components/schemas/" <= ref))
  }

  ghost predicate RefersTo(t: Table, a: Schema, n: string) {
    n in t && exists m :: m in a.allOf && m.ref != "" && Names(m.ref, n)
  }

  ghost predicate Refers(t: Table, a: Schema, b: Schema) {
    exists n :: RefersTo(t, a, n) && t[n] == b
  }

  ghost predicate Edge(t: Table, a: Schema, b: Schema) {
    Inlines(a, b) || Refers(t, a, b)
  }

  ghost predicate IsPath(t: Table, p: seq<Schema>, a: Schema, b: Schema) {
    && |p| > 0 && p[0] == a && p[|p| - 1] == b
    && forall i :: 0 <= i < |p| - 1 ==> Edge(t, p[i], p[i + 1])
  }

  ghost predicate Reaches(t: Table, a: Schema, b: Schema) {
    exists p :: IsPath(t, p, a, b)
  }

  /** Some schema reachable from a declares the property. */
  ghost predicate Offers(t: Table, a: Schema, name: string) {
    exists b :: Reaches(t, a, b) && name in b.properties
  }

  /** The walk's trimming finds the name a reference names, and there is only one. */
  lemma {:induction false} TrimFindsName(ref: string, n: string)
    ensures Names(ref, n) <==> TrimPrefix(ref) == n
  {
    if PREFIX <= ref {
      assert ref == PREFIX + ref[|PREFIX|..];
    }
    assert (PREFIX + n)[|PREFIX|..] == n;
  }

  // ----- What the walk has finished -----

  /** Everything written directly in the node, inline members included, is collected; every name it refers to is marked. */
  ghost predicate Done(node: Schema, out: set<string>, seen: set<string>)
    decreases node
  {
    && node.properties.Keys <= out
    && forall m :: m in node.allOf ==> if m.ref != "" then TrimPrefix(m.ref) in seen else Done(m, out, seen)
  }

  ghost predicate MemberDone(m: Schema, out: set<string>, seen: set<string>) {
    if m.ref != "" then TrimPrefix(m.ref) in seen else Done(m, out, seen)
  }

  /** Every marked name that exists in the table, beyond those in base, is finished. */
  ghost predicate Finished(t: Table, base: set<string>, out: set<string>, seen: set<string>) {
    forall n :: n in seen && n !in base && n in t ==> Done(t[n], out, seen)
  }

  lemma {:induction false} DoneGrows(node: Schema, out: set<string>, seen: set<string>, out': set<string>, seen': set<string>)
    requires Done(node, out, seen) && out <= out' && seen <= seen'
    ensures Done(node, out', seen')
    decreases node
  {
    forall m | m in node.allOf && m.ref == "" ensures Done(m, out', seen') {
      DoneGrows(m, out, seen, out', seen');
    }
  }

  lemma {:induction false} AllDoneGrow(out: set<string>, seen: set<string>, out': set<string>, seen': set<string>)
    requires out <= out' && seen <= seen'
    ensures forall node :: Done(node, out, seen) ==> Done(node, out', seen')
  {
    forall node | Done(node, out, seen) ensures Done(node, out', seen') {
      DoneGrows(node, out, seen, out', seen');
    }
  }

  lemma {:induction false} OffersOwn(t: Table, a: Schema)
    ensures forall p :: p in a.properties ==> Offers(t, a, p)
  {
    assert IsPath(t, [a], a, a);
    assert Reaches(t, a, a);
  }

  lemma {:induction false} OffersAcross(t: Table, a: Schema, b: Schema)
    requires Edge(t, a, b)
    ensures forall p :: Offers(t, b, p) ==> Offers(t, a, p)
  {
    forall p | Offers(t, b, p) ensures Offers(t, a, p) {
      var d :| Reaches(t, b, d) && p in d.properties;
      var path :| IsPath(t, path, b, d);
      var longer := [a] + path;
      forall i | 0 <= i < |longer| - 1 ensures Edge(t, longer[i], longer[i + 1]) {
        if i > 0 {
          assert Edge(t, path[i - 1], path[i]);
        }
      }
      assert IsPath(t, longer, a, d);
      assert Reaches(t, a, d);
    }
  }

  lemma {:induction false} EdgeStaysDone(t: Table, a: Schema, b: Schema, out: set<string>, seen: set<string>)
    requires Edge(t, a, b) && Done(a, out, seen) && Finished(t, {}, out, seen)
    ensures Done(b, out, seen)
  {
    if !Inlines(a, b) {
      var n :| RefersTo(t, a, n) && t[n] == b;
      var m :| m in a.allOf && m.ref != "" && Names(m.ref, n);
      TrimFindsName(m.ref, n);
    }
  }

  /** From a finished root, everything along a path is finished. */
  lemma {:induction false} PathStaysDone(t: Table, p: seq<Schema>, a: Schema, b: Schema, out: set<string>, seen: set<string>)
    requires IsPath(t, p, a, b) && Done(a, out, seen) && Finished(t, {}, out, seen)
    ensures Done(b, out, seen)
    decreases |p|
  {
    if |p| > 1 {
      assert Edge(t, p[0], p[1]);
      EdgeStaysDone(t, p[0], p[1], out, seen);
      var rest := p[1..];
      forall i | 0 <= i < |rest| - 1 ensures Edge(t, rest[i], rest[i + 1]) {
        assert Edge(t, p[i + 1], p[i + 2]);
      }
      PathStaysDone(t, rest, p[1], b, out, seen);
    }
  }

  lemma {:induction false} DoneCollectsAll(t: Table, a: Schema, out: set<string>, seen: set<string>)
    requires Done(a, out, seen) && Finished(t, {}, out, seen)
    ensures forall p :: Offers(t, a, p) ==> p in out
  {
    forall p | Offers(t, a, p) ensures p in out {
      var b :| Reaches(t, a, b) && p in b.properties;
      var path :| IsPath(t, path, a, b);
      PathStaysDone(t, path, a, b, out, seen);
    }
  }

  /** What is offered, one level at a time: a schema's own properties, those of its inline members, and those of the schemas its members name. */
  lemma {:induction false} OffersIff(t: Table, a: Schema, p: string)
    ensures Offers(t, a, p) <==>
            || p in a.properties
            || (exists m :: m in a.allOf && m.ref == "" && Offers(t, m, p))
            || (exists n :: RefersTo(t, a, n) && Offers(t, t[n], p))
  {
    OffersOwn(t, a);
    forall m | m in a.allOf && m.ref == "" && Offers(t, m, p)
      ensures Offers(t, a, p)
    {
      assert Inlines(a, m);
      OffersAcross(t, a, m);
    }
    forall n | RefersTo(t, a, n) && Offers(t, t[n], p)
      ensures Offers(t, a, p)
    {
      assert Refers(t, a, t[n]);
      OffersAcross(t, a, t[n]);
    }
    if Offers(t, a, p) {
      var b :| Reaches(t, a, b) && p in b.properties;
      var path :| IsPath(t, path, a, b);
      if |path| > 1 {
        OffersNext(t, path, a, b, p);
        if !Inlines(a, path[1]) {
          var n :| RefersTo(t, a, n) && t[n] == path[1];
        }
      }
    }
  }

  lemma {:induction false} OffersNext(t: Table, path: seq<Schema>, a: Schema, b: Schema, p: string)
    requires IsPath(t, path, a, b) && |path| > 1 && p in b.properties
    ensures Edge(t, a, path[1]) && Offers(t, path[1], p)
  {
    assert Edge(t, path[0], path[1]);
    var rest := path[1..];
    forall i | 0 <= i < |rest| - 1
      ensures Edge(t, rest[i], rest[i + 1])
    {
      assert Edge(t, path[i + 1], path[i + 2]);
    }
    assert IsPath(t, rest, path[1], b);
    assert Reaches(t, path[1], b);
  }

  // ----- The walk -----

  class Walk {
    var out: set<string>
    var seen: set<string>

    constructor (name: string)
      ensures out == {} && seen == {name}
    {
      out := {};
      seen := {name};
    }

    method MergeProperties(t: Table, node: Schema)
      modifies this
      ensures old(out) <= out && old(seen) <= seen
      ensures Done(node, out, seen) && Finished(t, old(seen), out, seen)
      ensures forall p :: p in out && p !in old(out) ==> Offers(t, node, p)
      decreases t.Keys - seen, node
    {
      OffersOwn(t, node);
      var names := node.properties.Keys;
      while names != {}
        invariant names <= node.properties.Keys
        invariant out == old(out) + (node.properties.Keys - names) && seen == old(seen)
      {
        var name :| name in names;
        out := out + {name};
        names := names - {name};
      }
      for i := 0 to |node.allOf|
        invariant old(out) <= out && old(seen) <= seen && node.properties.Keys <= out
        invariant forall k :: 0 <= k < i ==> MemberDone(node.allOf[k], out, seen)
        invariant Finished(t, old(seen), out, seen)
        invariant forall p :: p in out && p !in old(out) ==> Offers(t, node, p)
      {
        var sub := node.allOf[i];
        ghost var out0, seen0 := out, seen;
        if sub.ref != "" {
          var refName := TrimPrefix(sub.ref);
          if refName in seen {
            continue;
          }
          seen := seen + {refName};
          if refName !in t {
            AllDoneGrow(out0, seen0, out, seen);
            continue;
          }
          TrimFindsName(sub.ref, refName);
          assert RefersTo(t, node, refName);
          assert Edge(t, node, t[refName]);
          OffersAcross(t, node, t[refName]);
          MergeProperties(t, t[refName]);
          AllDoneGrow(out0, seen0, out, seen);
          continue;
        }
        OffersAcross(t, node, sub);
        MergeProperties(t, sub);
        AllDoneGrow(out0, seen0, out, seen);
      }
    }
  }

  /** Missing bucket or name: not found. Otherwise exactly the names offered through allOf. */
  method ResolveSchema(spec: Spec, name: string) returns (props: Option<set<string>>)
    ensures props.Some? <==> "schemas" in spec.comps && name in spec.comps["schemas"]
    ensures props.Some? ==>
              var t := spec.comps["schemas"];
              forall p :: p in props.value <==> Offers(t, t[name], p)
  {
    if "schemas" !in spec.comps {
      return None;
    }
    var t := spec.comps["schemas"];
    if name !in t {
      return None;
    }
    var walk := new Walk(name);
    walk.MergeProperties(t, t[name]);
    DoneCollectsAll(t, t[name], walk.out, walk.seen);
    return Some(walk.out);
  }
}
