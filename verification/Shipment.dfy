/** What a run ships back, and what it takes for the shipment to be believed. */
module Shipment {
  import opened Prelude

  /** A JSON value; `canonical` is false when it cannot be hashed (NaN, unsortable keys). */
  datatype Doc = Doc(text: string, canonical: bool)

  datatype Products = Products(items: map<string, Doc>, keysSortable: bool)

  /** An ideal content hash: equal exactly when the canonical contents are equal. */
  datatype Digest = OfDoc(text: string) | OfProducts(texts: map<string, string>)

  function HashDoc(d: Doc): Option<Digest> {
    if d.canonical then Some(OfDoc(d.text)) else None
  }

  function HashProducts(p: Products): Option<Digest> {
    if p.keysSortable && forall n :: n in p.items ==> p.items[n].canonical
    then Some(OfProducts(map n | n in p.items :: p.items[n].text))
    else None
  }

  datatype Field<T> = Missing | WrongType | Dict(value: T)

  datatype Shipment =
    | NotADict
    | Parcel(products: Field<Products>, sidecar: Field<map<string, Digest>>, attested: Field<map<string, string>>)

  datatype Key = ProductsKey | SidecarKey | AttestedKey

  datatype Violation =
    | NotADictAtAll
    | MalformedKey(key: Key)
    | Unhashable(name: string)
    | HashMismatch(name: string)
    | ShaMismatch(slot: string)

  /** A shipment is verified when it is complete, every product hashes to its sidecar entry,
      and the host attests every required engine blob. */
  ghost predicate Verified(s: Shipment, required: map<string, string>) {
    && s.Parcel? && s.products.Dict? && s.sidecar.Dict? && s.attested.Dict?
    && (forall n :: n in s.products.value.items ==>
          && s.products.value.items[n].canonical
          && n in s.sidecar.value
          && s.sidecar.value[n] == OfDoc(s.products.value.items[n].text))
    && (forall slot :: slot in required ==>
          slot in s.attested.value && s.attested.value[slot] == required[slot])
  }

  function ProductProblem(n: string, d: Doc, sidecar: map<string, Digest>): Option<Violation> {
    match HashDoc(d)
    case None => Some(Unhashable(n))
    case Some(got) => if n in sidecar && sidecar[n] == got then None else Some(HashMismatch(n))
  }

  /** Violations of the shape: each of the three keys must be present and a dict. */
  method ShapeProblems(s: Shipment) returns (v: seq<Violation>)
    requires s.Parcel?
    ensures v == [] <==> s.products.Dict? && s.sidecar.Dict? && s.attested.Dict?
    ensures MalformedKey(ProductsKey) in v <==> !s.products.Dict?
    ensures MalformedKey(SidecarKey) in v <==> !s.sidecar.Dict?
    ensures MalformedKey(AttestedKey) in v <==> !s.attested.Dict?
    ensures forall x :: x in v ==> x.MalformedKey?
  {
    v := [];
    if !s.products.Dict? {
      v := v + [MalformedKey(ProductsKey)];
    }
    if !s.sidecar.Dict? {
      v := v + [MalformedKey(SidecarKey)];
    }
    if !s.attested.Dict? {
      v := v + [MalformedKey(AttestedKey)];
    }
  }

  method ProductProblems(items: map<string, Doc>, sidecar: map<string, Digest>) returns (v: seq<Violation>)
    ensures forall x :: x in v <==> exists n :: n in items && ProductProblem(n, items[n], sidecar) == Some(x)
  {
    v := [];
    var left := items.Keys;
    while left != {}
      invariant left <= items.Keys
      invariant forall x :: x in v <==>
                  exists n :: n in items && n !in left && ProductProblem(n, items[n], sidecar) == Some(x)
      decreases |left|
    {
      var n :| n in left;
      left := left - {n};
      var problem := ProductProblem(n, items[n], sidecar);
      if problem.Some? {
        v := v + [problem.value];
      }
    }
  }

  method AttestationProblems(required: map<string, string>, attested: map<string, string>) returns (v: seq<Violation>)
    ensures forall x :: x in v <==>
              x.ShaMismatch? && x.slot in required && !(x.slot in attested && attested[x.slot] == required[x.slot])
  {
    v := [];
    var left := required.Keys;
    while left != {}
      invariant left <= required.Keys
      invariant forall x :: x in v <==>
                  && x.ShaMismatch? && x.slot in required && x.slot !in left
                  && !(x.slot in attested && attested[x.slot] == required[x.slot])
      decreases |left|
    {
      var slot :| slot in left;
      left := left - {slot};
      if !(slot in attested && attested[slot] == required[slot]) {
        v := v + [ShaMismatch(slot)];
      }
    }
  }

  /** Empty exactly for verified shipments, and otherwise it names what is wrong: a product
      is reported exactly when it does not match, a slot exactly when it is not attested. */
  method VerifyShipment(s: Shipment, required: map<string, string>) returns (v: seq<Violation>)
    ensures v == [] <==> Verified(s, required)
    ensures s.NotADict? <==> NotADictAtAll in v
    ensures s.Parcel? ==>
              && (MalformedKey(ProductsKey) in v <==> !s.products.Dict?)
              && (MalformedKey(SidecarKey) in v <==> !s.sidecar.Dict?)
              && (MalformedKey(AttestedKey) in v <==> !s.attested.Dict?)
    ensures s.Parcel? && s.products.Dict? && s.sidecar.Dict? && s.attested.Dict? ==>
              forall n ::
                && (Unhashable(n) in v <==> n in s.products.value.items && !s.products.value.items[n].canonical)
                && (HashMismatch(n) in v <==>
                      && n in s.products.value.items && s.products.value.items[n].canonical
                      && !(n in s.sidecar.value && s.sidecar.value[n] == OfDoc(s.products.value.items[n].text)))
    ensures s.Parcel? && s.products.Dict? && s.sidecar.Dict? && s.attested.Dict? ==>
              forall slot :: ShaMismatch(slot) in v <==>
                slot in required && !(slot in s.attested.value && s.attested.value[slot] == required[slot])
  {
    if s.NotADict? {
      return [NotADictAtAll];
    }
    var shape := ShapeProblems(s);
    if shape != [] {
      return shape;
    }
    var p := ProductProblems(s.products.value.items, s.sidecar.value);
    var a := AttestationProblems(required, s.attested.value);
    v := p + a;
    NoProblemsMeansVerified(s, required, p, a);
    ProblemsAreProducts(s.products.value.items, s.sidecar.value, p);
  }

  lemma ProblemsAreProducts(items: map<string, Doc>, sidecar: map<string, Digest>, p: seq<Violation>)
    requires forall x :: x in p <==> exists n :: n in items && ProductProblem(n, items[n], sidecar) == Some(x)
    ensures forall n :: Unhashable(n) in p <==> n in items && !items[n].canonical
    ensures forall n :: HashMismatch(n) in p <==>
              n in items && items[n].canonical && !(n in sidecar && sidecar[n] == OfDoc(items[n].text))
    ensures forall slot :: ShaMismatch(slot) !in p
  {
    forall n | n in items && ProductProblem(n, items[n], sidecar).Some?
      ensures ProductProblem(n, items[n], sidecar).value in p
    {
    }
  }

  lemma NoProblemsMeansVerified(s: Shipment, required: map<string, string>, p: seq<Violation>, a: seq<Violation>)
    requires s.Parcel? && s.products.Dict? && s.sidecar.Dict? && s.attested.Dict?
    requires forall x :: x in p <==>
               exists n :: n in s.products.value.items
                           && ProductProblem(n, s.products.value.items[n], s.sidecar.value) == Some(x)
    requires forall x :: x in a <==>
               && x.ShaMismatch? && x.slot in required
               && !(x.slot in s.attested.value && s.attested.value[x.slot] == required[x.slot])
    ensures p + a == [] <==> Verified(s, required)
  {
    var items, sidecar := s.products.value.items, s.sidecar.value;
    assert forall n :: n in items && ProductProblem(n, items[n], sidecar).Some? ==>
             ProductProblem(n, items[n], sidecar).value in p;
    assert forall slot :: slot in required && !(slot in s.attested.value && s.attested.value[slot] == required[slot])
             ==> ShaMismatch(slot) in a;
    assert forall x :: x in p + a <==> x in p || x in a;
    if p + a != [] {
      assert (p + a)[0] in p + a;
    }
  }

  /** Two shipments with the same product digest shipped the same products. */
  lemma DigestIsFaithful(p: Products, q: Products)
    requires HashProducts(p).Some? && HashProducts(p) == HashProducts(q)
    ensures p.items.Keys == q.items.Keys && forall n :: n in p.items ==> p.items[n] == q.items[n]
  {
    var f, g := HashProducts(p).value.texts, HashProducts(q).value.texts;
    assert f.Keys == p.items.Keys && g.Keys == q.items.Keys;
    forall n | n in p.items ensures p.items[n] == q.items[n] {
      assert f[n] == g[n];
    }
  }
}
