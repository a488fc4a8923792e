/** Manual collections: positions stored on link rows, and the sequence of products they stand for. */
module Collections {
  import opened Wrappers
  import opened Sets

  type Id = nat

  /** The link rows of one collection: product to position. */
  type Links = map<Id, int>

  datatype Product = Product(tenant: Id, active: bool)
  datatype Collection = Collection(tenant: Id, manual: bool, links: Links)

  predicate NoDuplicates(xs: seq<Id>) {
    forall i, j :: 0 <= i < j < |xs| ==> xs[i] != xs[j]
  }

  function Elements(xs: seq<Id>): set<Id> {
    set x | x in xs
  }

  /** The rows stand for the sequence: the same products, with strictly increasing positions along it. */
  predicate Refines(links: Links, xs: seq<Id>) {
    && NoDuplicates(xs) && Elements(xs) == links.Keys
    && forall i, j :: 0 <= i < j < |xs| ==> links[xs[i]] < links[xs[j]]
  }

  predicate PositionsDistinct(links: Links) {
    forall p, q :: p in links && q in links && p != q ==> links[p] != links[q]
  }

  // ── Operations on the rows ────────────────────────────────────────────────

  /** One more than the greatest position, or 0 in an empty collection. */
  ghost predicate IsNext(links: Links, next: int) {
    if links == map[] then next == 0
    else (exists p :: p in links && links[p] == next - 1) && forall p :: p in links ==> links[p] < next
  }

  /** Each new product gets the position of its place in the request after the last one, so repeated or already
      linked products leave gaps. */
  function Attach(links: Links, start: int, ids: seq<Id>): Links {
    if ids == [] then links
    else
      var before, last := Attach(links, start, ids[..|ids| - 1]), ids[|ids| - 1];
      if last in before then before else before[last := start + |ids| - 1]
  }

  predicate ReorderAccepted(links: Links, ids: seq<Id>) {
    |ids| == |links| && forall p :: p in ids ==> p in links
  }

  /** Each product in turn takes its place in the list as position; a repeated one keeps the last. */
  function Reorder(links: Links, ids: seq<Id>): Links {
    if ids == [] then links else Reorder(links, ids[..|ids| - 1])[ids[|ids| - 1] := |ids| - 1]
  }

  function Restrict(links: Links, keep: set<Id>): Links {
    map p | p in links && p in keep :: links[p]
  }

  // ── Operations on the sequence ────────────────────────────────────────────

  /** The first occurrences, in order, of the ids outside `have`. */
  function FirstNew(ids: seq<Id>, have: set<Id>): seq<Id> {
    if ids == [] then []
    else
      var init, last := ids[..|ids| - 1], ids[|ids| - 1];
      FirstNew(init, have) + (if last in have || last in init then [] else [last])
  }

  function Keep(xs: seq<Id>, keep: set<Id>): seq<Id> {
    if xs == [] then []
    else Keep(xs[..|xs| - 1], keep) + (if xs[|xs| - 1] in keep then [xs[|xs| - 1]] else [])
  }

  /** What a query ordered by position may return for some rows: ties come in any order. */
  predicate IsListing(links: Links, rs: seq<Id>) {
    && NoDuplicates(rs) && Elements(rs) == links.Keys
    && forall i, j :: 0 <= i < j < |rs| ==> links[rs[i]] <= links[rs[j]]
  }

  // ── Attach ────────────────────────────────────────────────────────────────

  lemma {:induction false} FirstNewElements(ids: seq<Id>, have: set<Id>, x: Id)
    ensures x in FirstNew(ids, have) <==> x in ids && x !in have
  {
    if ids != [] {
      var init, last := ids[..|ids| - 1], ids[|ids| - 1];
      FirstNewElements(init, have, x);
      assert x in ids <==> x in init || x == last;
    }
  }

  lemma {:induction false} AttachRows(links: Links, start: int, ids: seq<Id>, p: Id)
    requires forall q :: q in links ==> links[q] < start
    ensures p in Attach(links, start, ids) <==> p in links || p in ids
    ensures p in links ==> Attach(links, start, ids)[p] == links[p]
    ensures p in Attach(links, start, ids) ==> Attach(links, start, ids)[p] < start + |ids|
    ensures p in Attach(links, start, ids) && p !in links ==> start <= Attach(links, start, ids)[p]
  {
    if ids != [] {
      var init, last := ids[..|ids| - 1], ids[|ids| - 1];
      AttachRows(links, start, init, p);
      assert p in ids <==> p in init || p == last;
    }
  }

  lemma SnocRefines(links: Links, xs: seq<Id>, p: Id, position: int)
    requires Refines(links, xs) && p !in links && forall q :: q in links ==> links[q] < position
    ensures Refines(links[p := position], xs + [p])
  {
    var after, ys := links[p := position], xs + [p];
    assert forall i :: 0 <= i < |xs| ==> xs[i] in Elements(xs);
    assert Elements(ys) == after.Keys by {
      forall x ensures x in Elements(ys) <==> x in after.Keys {
        assert x in Elements(ys) <==> x in Elements(xs) || x == p;
      }
    }
  }

  /** Attaching appends the first occurrences of the products not yet linked, whatever gaps it leaves. */
  lemma {:induction false} AttachRefines(links: Links, start: int, ids: seq<Id>, xs: seq<Id>)
    requires Refines(links, xs) && forall q :: q in links ==> links[q] < start
    ensures Refines(Attach(links, start, ids), xs + FirstNew(ids, links.Keys))
  {
    if ids == [] {
      assert xs + [] == xs;
    } else {
      var init, last := ids[..|ids| - 1], ids[|ids| - 1];
      AttachRefines(links, start, init, xs);
      AttachRows(links, start, init, last);
      var before, ys := Attach(links, start, init), xs + FirstNew(init, links.Keys);
      if last !in before {
        forall q | q in before ensures before[q] < start + |init| {
          AttachRows(links, start, init, q);
        }
        SnocRefines(before, ys, last, start + |init|);
        assert xs + FirstNew(ids, links.Keys) == ys + [last];
      } else {
        assert FirstNew(ids, links.Keys) == FirstNew(init, links.Keys);
      }
    }
  }

  // ── Detach and the public view ────────────────────────────────────────────

  lemma {:induction false} KeepElements(xs: seq<Id>, keep: set<Id>, x: Id)
    ensures x in Keep(xs, keep) <==> x in xs && x in keep
  {
    if xs != [] {
      var init, last := xs[..|xs| - 1], xs[|xs| - 1];
      KeepElements(init, keep, x);
      assert x in xs <==> x in init || x == last;
    }
  }

  /** Filtering keeps the order of what remains. */
  lemma {:induction false} KeepAscends(links: Links, xs: seq<Id>, keep: set<Id>)
    requires forall x :: x in xs ==> x in links
    requires forall i, j :: 0 <= i < j < |xs| ==> links[xs[i]] < links[xs[j]]
    ensures var ys := Keep(xs, keep);
            && (forall y :: y in ys ==> y in xs)
            && forall i, j :: 0 <= i < j < |ys| ==> links[ys[i]] < links[ys[j]]
  {
    if xs != [] {
      var init, last := xs[..|xs| - 1], xs[|xs| - 1];
      assert forall x :: x in init ==> x in xs;
      KeepAscends(links, init, keep);
      forall y | y in Keep(init, keep) ensures links[y] < links[last] {
        var i :| 0 <= i < |init| && init[i] == y;
        assert xs[i] == y;
      }
    }
  }

  /** Dropping rows drops the same products from the sequence and keeps the order of the rest. */
  lemma RestrictRefines(links: Links, xs: seq<Id>, keep: set<Id>)
    requires Refines(links, xs)
    ensures Refines(Restrict(links, keep), Keep(xs, keep))
  {
    var ys, kept := Keep(xs, keep), Restrict(links, keep);
    assert forall x :: x in xs <==> x in Elements(xs);
    KeepAscends(links, xs, keep);
    forall x ensures x in Elements(ys) <==> x in kept.Keys {
      KeepElements(xs, keep, x);
    }
    forall i, j | 0 <= i < j < |ys| ensures ys[i] != ys[j] && kept[ys[i]] < kept[ys[j]] {
      assert ys[i] in Elements(ys) && ys[j] in Elements(ys);
      assert links[ys[i]] < links[ys[j]];
    }
  }

  lemma InitRefines(links: Links, xs: seq<Id>)
    requires Refines(links, xs) && xs != []
    ensures Refines(links - {xs[|xs| - 1]}, xs[..|xs| - 1])
  {
    var init, last := xs[..|xs| - 1], xs[|xs| - 1];
    forall x ensures x in Elements(init) <==> x in (links - {last}).Keys {
      assert x in Elements(xs) <==> x in Elements(init) || x == last;
    }
  }

  /** The greatest position decides the last element of either order. */
  lemma SameLast(links: Links, xs: seq<Id>, rs: seq<Id>)
    requires Refines(links, xs) && IsListing(links, rs) && xs != [] && rs != []
    ensures xs[|xs| - 1] == rs[|rs| - 1]
  {
    var x, r := xs[|xs| - 1], rs[|rs| - 1];
    assert x in Elements(xs) && r in Elements(rs);
    assert x in Elements(rs) && r in Elements(xs);
    var i :| 0 <= i < |rs| && rs[i] == x;
    var j :| 0 <= j < |xs| && xs[j] == r;
    assert links[x] <= links[r];
  }

  lemma InitLists(links: Links, rs: seq<Id>)
    requires IsListing(links, rs) && rs != []
    ensures IsListing(links - {rs[|rs| - 1]}, rs[..|rs| - 1])
  {
    var init, last := rs[..|rs| - 1], rs[|rs| - 1];
    forall x ensures x in Elements(init) <==> x in (links - {last}).Keys {
      assert x in Elements(rs) <==> x in Elements(init) || x == last;
    }
  }

  lemma EmptyElements(xs: seq<Id>)
    ensures Elements(xs) == {} <==> xs == []
  {
    if xs != [] {
      assert xs[0] in Elements(xs);
    }
  }

  lemma BothEmpty(links: Links, xs: seq<Id>, rs: seq<Id>)
    requires Refines(links, xs) && IsListing(links, rs)
    ensures xs == [] <==> rs == []
  {
    EmptyElements(xs);
    EmptyElements(rs);
  }

  /** With distinct positions an ordered query has one possible answer: the sequence itself. */
  lemma {:induction false} ListingIsSequence(links: Links, xs: seq<Id>, rs: seq<Id>)
    requires Refines(links, xs) && IsListing(links, rs)
    ensures rs == xs
    decreases |xs|
  {
    hide Refines, IsListing;
    BothEmpty(links, xs, rs);
    if xs != [] {
      SameLast(links, xs, rs);
      InitRefines(links, xs);
      InitLists(links, rs);
      ListingIsSequence(links - {xs[|xs| - 1]}, xs[..|xs| - 1], rs[..|rs| - 1]);
    }
  }

  /** The storefront shows exactly the collection's sequence filtered to its active products. */
  lemma PublicView(links: Links, xs: seq<Id>, active: set<Id>, rs: seq<Id>)
    requires Refines(links, xs) && IsListing(Restrict(links, active), rs)
    ensures rs == Keep(xs, active)
  {
    RestrictRefines(links, xs, active);
    ListingIsSequence(Restrict(links, active), Keep(xs, active), rs);
  }

  // ── Reorder ───────────────────────────────────────────────────────────────

  lemma {:induction false} ElementsSize(xs: seq<Id>)
    ensures |Elements(xs)| <= |xs|
    ensures |Elements(xs)| == |xs| <==> NoDuplicates(xs)
  {
    if xs != [] {
      var init, last := xs[..|xs| - 1], xs[|xs| - 1];
      ElementsSize(init);
      assert Elements(xs) == Elements(init) + {last};
      if last in init {
        var i :| 0 <= i < |init| && init[i] == last;
        assert xs[i] == xs[|xs| - 1];
      } else if NoDuplicates(init) {
        assert forall i :: 0 <= i < |init| ==> xs[i] == init[i] != last;
      }
      if NoDuplicates(xs) {
        assert NoDuplicates(init);
      }
    }
  }

  lemma {:induction false} ReorderRows(links: Links, ids: seq<Id>)
    requires forall p :: p in ids ==> p in links
    ensures Reorder(links, ids).Keys == links.Keys
    ensures forall p :: p in links && p !in ids ==> Reorder(links, ids)[p] == links[p]
    ensures forall i :: 0 <= i < |ids| && IsLastOf(ids, i) ==> Reorder(links, ids)[ids[i]] == i
  {
    if ids != [] {
      var init, last := ids[..|ids| - 1], ids[|ids| - 1];
      assert forall p :: p in ids <==> p in init || p == last;
      ReorderRows(links, init);
      forall i | 0 <= i < |ids| && IsLastOf(ids, i) ensures Reorder(links, ids)[ids[i]] == i {
        if i < |init| {
          assert ids[i] != last;
          assert IsLastOf(init, i);
        }
      }
    }
  }

  /** Nothing after place `i` repeats the product there. */
  predicate IsLastOf(ids: seq<Id>, i: int)
    requires 0 <= i < |ids|
  {
    forall j :: i < j < |ids| ==> ids[j] != ids[i]
  }

  /** Every product of a list has a last place in it. */
  lemma {:induction false} LastPlace(ids: seq<Id>, p: Id) returns (i: nat)
    requires p in ids
    ensures i < |ids| && ids[i] == p && IsLastOf(ids, i)
  {
    var init, last := ids[..|ids| - 1], ids[|ids| - 1];
    if p == last {
      i := |ids| - 1;
    } else {
      i := LastPlace(init, p);
    }
  }

  /** An accepted list becomes exactly the collection's order if and only if it repeats no product, which is also
      exactly when it names every linked product. The service does not check for repetitions. */
  lemma ReorderRefinesIff(links: Links, ids: seq<Id>)
    requires ReorderAccepted(links, ids)
    ensures Refines(Reorder(links, ids), ids) <==> NoDuplicates(ids)
    ensures NoDuplicates(ids) <==> Elements(ids) == links.Keys
  {
    ReorderRows(links, ids);
    ElementsSize(ids);
    assert |links| == |links.Keys|;
    if NoDuplicates(ids) {
      SubsetOfSameSize(Elements(ids), links.Keys);
      assert forall i :: 0 <= i < |ids| ==> IsLastOf(ids, i);
    }
  }

  /** When an accepted list does repeat a product, positions stay distinct exactly when no product it leaves out
      sits on a place some listed product now takes. */
  lemma ReorderDistinctIff(links: Links, ids: seq<Id>)
    requires ReorderAccepted(links, ids) && PositionsDistinct(links)
    ensures PositionsDistinct(Reorder(links, ids)) <==>
            forall q, i :: q in links && q !in ids && 0 <= i < |ids| && IsLastOf(ids, i) ==> links[q] != i
  {
    ReorderRows(links, ids);
    var after := Reorder(links, ids);
    if PositionsDistinct(after) {
      forall q, i | q in links && q !in ids && 0 <= i < |ids| && IsLastOf(ids, i) ensures links[q] != i {
        assert after[q] == links[q] && after[ids[i]] == i && q != ids[i];
      }
    }
    if forall q, i :: q in links && q !in ids && 0 <= i < |ids| && IsLastOf(ids, i) ==> links[q] != i {
      forall p, q | p in after && q in after && p != q ensures after[p] != after[q] {
        if p in ids {
          var i := LastPlace(ids, p);
          if q in ids {
            var j := LastPlace(ids, q);
          }
        } else if q in ids {
          var j := LastPlace(ids, q);
        }
      }
    }
  }

  /** The check lets a repeated product through, and two products end on the same position. */
  lemma DuplicateReorderCollides()
    ensures var links := map[7 := 0, 8 := 1];
            && ReorderAccepted(links, [7, 7])
            && Reorder(links, [7, 7]) == map[7 := 1, 8 := 1]
            && !PositionsDistinct(Reorder(links, [7, 7]))
  {
    var links: Links := map[7 := 0, 8 := 1];
    assert links.Keys == {7, 8};
    assert |links| == |links.Keys|;
    var ids: seq<Id> := [7, 7];
    assert ids[..1] == [7] && [7][..0] == [];
    assert Reorder(links, [7]) == links[7 := 0];
    var after := Reorder(links, ids);
    assert after == map[7 := 1, 8 := 1];
    assert after[7] == after[8];
  }

  // ── Runs ──────────────────────────────────────────────────────────────────

  datatype Op = AttachOp(ids: seq<Id>) | ReorderOp(ids: seq<Id>) | DetachOp(product: Id)

  predicate IsGreatest(links: Links, m: Id) {
    m in links && forall p :: p in links ==> links[p] <= links[m]
  }

  lemma {:induction false} HasGreatest(links: Links) returns (m: Id)
    requires links != map[]
    ensures IsGreatest(links, m)
    decreases |links|
  {
    var x :| x in links;
    var rest := links - {x};
    m := x;
    if rest != map[] {
      var y := HasGreatest(rest);
      m := if links[x] <= links[y] then y else x;
    }
    forall p | p in links ensures links[p] <= links[m] {
      if p != x {
        assert p in rest;
      }
    }
  }

  lemma GreatestExists(links: Links)
    requires links != map[]
    ensures exists m :: IsGreatest(links, m)
  {
    var m := HasGreatest(links);
  }

  ghost function NextPosition(links: Links): (next: int)
    ensures IsNext(links, next)
  {
    if links == map[] then 0
    else
      GreatestExists(links);
      var m :| IsGreatest(links, m);
      links[m] + 1
  }

  /** A manual collection whose tenant owns exactly the products in `owned`. */
  ghost function Apply(links: Links, owned: set<Id>, op: Op): Result<Links> {
    match op
    case AttachOp(ids) =>
      if Elements(ids) <= owned then Ok(Attach(links, NextPosition(links), ids)) else Err(NotFound)
    case ReorderOp(ids) => if ReorderAccepted(links, ids) then Ok(Reorder(links, ids)) else Err(BadRequest)
    case DetachOp(product) => if product in links then Ok(links - {product}) else Err(NotFound)
  }

  /** The same operation on the sequence. */
  function ApplyToSequence(xs: seq<Id>, owned: set<Id>, op: Op): seq<Id> {
    match op
    case AttachOp(ids) => if Elements(ids) <= owned then xs + FirstNew(ids, Elements(xs)) else xs
    case ReorderOp(ids) => if |ids| == |xs| && Elements(ids) <= Elements(xs) then ids else xs
    case DetachOp(product) => Keep(xs, Elements(xs) - {product})
  }

  /** What can happen to a collection's links: a call, with the products the tenant owns at that moment, or the
      deletion of a product, which takes its link with it. */
  datatype Event = Call(owned: set<Id>, op: Op) | ProductDeleted(product: Id)

  ghost function AfterEvent(links: Links, e: Event): Links {
    match e
    case Call(owned, op) => After(links, Apply(links, owned, op))
    case ProductDeleted(product) => links - {product}
  }

  function SequenceAfter(xs: seq<Id>, e: Event): seq<Id> {
    match e
    case Call(owned, op) => ApplyToSequence(xs, owned, op)
    case ProductDeleted(product) => Keep(xs, Elements(xs) - {product})
  }

  ghost function RunLinks(links: Links, run: seq<Event>): Links {
    if run == [] then links else AfterEvent(RunLinks(links, run[..|run| - 1]), run[|run| - 1])
  }

  function RunSequence(xs: seq<Id>, run: seq<Event>): seq<Id> {
    if run == [] then xs else SequenceAfter(RunSequence(xs, run[..|run| - 1]), run[|run| - 1])
  }

  predicate RepetitionFree(e: Event) {
    e.Call? && e.op.ReorderOp? ==> NoDuplicates(e.op.ids)
  }

  lemma StepRefines(links: Links, xs: seq<Id>, owned: set<Id>, op: Op)
    requires Refines(links, xs) && (op.ReorderOp? ==> NoDuplicates(op.ids))
    ensures Refines(After(links, Apply(links, owned, op)), ApplyToSequence(xs, owned, op))
  {
    match op {
      case AttachOp(ids) =>
        if Elements(ids) <= owned {
          AttachRefines(links, NextPosition(links), ids, xs);
        }
      case ReorderOp(ids) =>
        ElementsSize(xs);
        assert |links| == |links.Keys|;
        assert ReorderAccepted(links, ids) <==> |ids| == |xs| && Elements(ids) <= Elements(xs) by {
          assert forall p :: p in ids <==> p in Elements(ids);
        }
        if ReorderAccepted(links, ids) {
          ReorderRefinesIff(links, ids);
        }
      case DetachOp(product) => DropRefines(links, xs, product);
    }
  }

  lemma DropRefines(links: Links, xs: seq<Id>, product: Id)
    requires Refines(links, xs)
    ensures Refines(links - {product}, Keep(xs, Elements(xs) - {product}))
    ensures product !in links ==> links - {product} == links
  {
    RestrictRefines(links, xs, Elements(xs) - {product});
    assert Restrict(links, Elements(xs) - {product}) == links - {product};
  }

  /** In every run of attaches, detaches, duplicate-free reorders and product deletions, with products coming and
      going between them, the rows stand for the sequence the same operations build on lists, and no two products
      share a position. */
  lemma {:induction false} RunRefines(links: Links, xs: seq<Id>, run: seq<Event>)
    requires Refines(links, xs)
    requires forall e :: e in run ==> RepetitionFree(e)
    ensures Refines(RunLinks(links, run), RunSequence(xs, run))
    ensures PositionsDistinct(RunLinks(links, run))
  {
    if run != [] {
      var init, last := run[..|run| - 1], run[|run| - 1];
      assert last in run && forall e :: e in init ==> e in run;
      RunRefines(links, xs, init);
      match last {
        case Call(owned, op) => StepRefines(RunLinks(links, init), RunSequence(xs, init), owned, op);
        case ProductDeleted(product) => DropRefines(RunLinks(links, init), RunSequence(xs, init), product);
      }
    }
    RefinedIsDistinct(RunLinks(links, run), RunSequence(xs, run));
  }

  lemma RefinedIsDistinct(links: Links, xs: seq<Id>)
    requires Refines(links, xs)
    ensures PositionsDistinct(links)
  {
    forall p, q | p in links && q in links && p != q ensures links[p] != links[q] {
      assert p in Elements(xs) && q in Elements(xs);
      var i :| 0 <= i < |xs| && xs[i] == p;
      var j :| 0 <= j < |xs| && xs[j] == q;
    }
  }

  // ── The service ───────────────────────────────────────────────────────────

  datatype Tables = Tables(collections: map<Id, Collection>, products: map<Id, Product>)

  function Owned(products: map<Id, Product>, tenant: Id): set<Id> {
    set p | p in products && products[p].tenant == tenant
  }

  /** A call changes the links of the named manual collection of the tenant, and nothing else. */
  ghost function Attempt(t: Tables, tenant: Id, id: Id, op: Op): Result<Tables> {
    if id !in t.collections || t.collections[id].tenant != tenant then Err(NotFound)
    else if !t.collections[id].manual then Err(BadRequest)
    else
      match Apply(t.collections[id].links, Owned(t.products, tenant), op)
      case Err(e) => Err(e)
      case Ok(links) => Ok(t.(collections := t.collections[id := t.collections[id].(links := links)]))
  }

  /** Which calls reach a collection's links: those on a manual collection of the tenant, attaching only products of the
      tenant. An accepted call changes that collection's links alone. */
  lemma AttemptIff(t: Tables, tenant: Id, id: Id, op: Op)
    ensures var r := Attempt(t, tenant, id, op);
            && (r.Ok? <==>
                  && id in t.collections && t.collections[id].tenant == tenant && t.collections[id].manual
                  && match op
                     case AttachOp(ids) => forall p :: p in ids ==> p in t.products && t.products[p].tenant == tenant
                     case ReorderOp(ids) => |ids| == |t.collections[id].links|
                                            && forall p :: p in ids ==> p in t.collections[id].links
                     case DetachOp(product) => product in t.collections[id].links)
            && (r == Err(NotFound) <==>
                  || id !in t.collections || t.collections[id].tenant != tenant
                  || (t.collections[id].manual
                      && ((op.AttachOp? && exists p :: p in op.ids && !(p in t.products && t.products[p].tenant == tenant))
                          || (op.DetachOp? && op.product !in t.collections[id].links))))
            && (r.Ok? ==>
                  && r.value.products == t.products && r.value.collections.Keys == t.collections.Keys
                  && (forall c :: c in t.collections && c != id ==> r.value.collections[c] == t.collections[c])
                  && r.value.collections[id].tenant == tenant && r.value.collections[id].manual)
  {
    if op.AttachOp? {
      assert Elements(op.ids) <= Owned(t.products, tenant) <==>
             forall p :: p in op.ids ==> p in t.products && t.products[p].tenant == tenant by {
        assert forall p :: p in op.ids <==> p in Elements(op.ids);
      }
    }
  }

  class AdminCollectionsService {
    var collections: map<Id, Collection>
    var products: map<Id, Product>

    constructor ()
      ensures Model() == Tables(map[], map[])
    {
      collections, products := map[], map[];
    }

    function Model(): Tables
      reads this
    {
      Tables(collections, products)
    }

    method EnsureManual(tenant: Id, id: Id) returns (r: Result<()>)
      ensures r == if id !in collections || collections[id].tenant != tenant then Err(NotFound)
                   else if !collections[id].manual then Err(BadRequest) else Ok(())
    {
      if id !in collections || collections[id].tenant != tenant {
        return Err(NotFound);
      }
      if !collections[id].manual {
        return Err(BadRequest);
      }
      return Ok(());
    }

    method AttachProducts(tenant: Id, id: Id, productIds: seq<Id>) returns (r: Result<()>)
      modifies this
      ensures var result := Attempt(old(Model()), tenant, id, AttachOp(productIds));
              Model() == After(old(Model()), result) && r == Outcome(result)
    {
      r := EnsureManual(tenant, id);
      if r.Err? {
        return;
      }
      if !(Elements(productIds) <= Owned(products, tenant)) {
        return Err(NotFound);
      }
      var links := collections[id].links;
      var start := FirstFreePosition(links);
      var position := start;
      var i := 0;
      while i < |productIds|
        invariant 0 <= i <= |productIds| && position == start + i
        invariant links == Attach(old(collections)[id].links, start, productIds[..i])
      {
        var product := productIds[i];
        assert productIds[..i + 1][..i] == productIds[..i];
        if product !in links {
          links := links[product := position];
        }
        position := position + 1;
        i := i + 1;
      }
      assert productIds[..i] == productIds;
      collections := collections[id := collections[id].(links := links)];
    }

    /** The maximum the database aggregates, plus one. */
    method FirstFreePosition(links: Links) returns (next: int)
      ensures next == NextPosition(links)
    {
      if links == map[] {
        return 0;
      }
      var rest := links.Keys;
      var p :| p in rest;
      var greatest := links[p];
      rest := rest - {p};
      ghost var best := p;
      while rest != {}
        invariant rest <= links.Keys && best in links && links[best] == greatest
        invariant forall q :: q in links && q !in rest ==> links[q] <= greatest
      {
        var q :| q in rest;
        if greatest < links[q] {
          greatest := links[q];
          best := q;
        }
        rest := rest - {q};
      }
      next := greatest + 1;
      NextIsUnique(links, next, NextPosition(links));
    }

    method ReorderProducts(tenant: Id, id: Id, productIds: seq<Id>) returns (r: Result<()>)
      modifies this
      ensures var result := Attempt(old(Model()), tenant, id, ReorderOp(productIds));
              Model() == After(old(Model()), result) && r == Outcome(result)
    {
      r := EnsureManual(tenant, id);
      if r.Err? {
        return;
      }
      var links := collections[id].links;
      if !ReorderAccepted(links, productIds) {
        return Err(BadRequest);
      }
      var position := 0;
      while position < |productIds|
        invariant 0 <= position <= |productIds|
        invariant links == Reorder(old(collections)[id].links, productIds[..position])
      {
        assert productIds[..position + 1][..position] == productIds[..position];
        links := links[productIds[position] := position];
        position := position + 1;
      }
      assert productIds[..position] == productIds;
      collections := collections[id := collections[id].(links := links)];
    }

    method DetachProduct(tenant: Id, id: Id, product: Id) returns (r: Result<()>)
      modifies this
      ensures var result := Attempt(old(Model()), tenant, id, DetachOp(product));
              Model() == After(old(Model()), result) && r == Outcome(result)
    {
      r := EnsureManual(tenant, id);
      if r.Err? {
        return;
      }
      var links := collections[id].links;
      if product !in links {
        return Err(NotFound);
      }
      collections := collections[id := collections[id].(links := links - {product})];
    }
  }

  lemma NextIsUnique(links: Links, a: int, b: int)
    requires IsNext(links, a) && IsNext(links, b)
    ensures a == b
  {}
}
