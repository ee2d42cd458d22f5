/**
 * RecursiveOneToOneLoadListener: after an entity is loaded, for each of its
 * fields annotated OneToOneRecursive, the ids a recursive SQL query returns
 * are walked in order and consecutive loaded entities are wired together
 * through their `child` and `parent` fields.
 *
 * The SQL query and the entity query are inputs: per annotated field, the
 * ids the recursive query returned and the entities loaded for them.
 */
module RecursiveOneToOne {
  import opened Wrappers
  import opened Meta

  /** An id value (a Long column). */
  type IdValue = int

  /** A loaded entity: its runtime class, its id, and the two fields the listener wires. */
  class Entity {
    const cls: ClassDecl
    const id: Option<IdValue>
    /** Whether reflection may read the id field; reading it otherwise throws IllegalAccessException. */
    const idReadable: bool
    var child: Entity?
    var parent: Entity?

    constructor (cls: ClassDecl, id: Option<IdValue>, idReadable: bool)
      ensures this.cls == cls && this.id == id && this.idReadable == idReadable
      ensures child == null && parent == null
    {
      this.cls := cls;
      this.id := id;
      this.idReadable := idReadable;
      child := null;
      parent := null;
    }
  }

  /**
   * The exceptions that abort the listener: no id field on the class or its
   * superclass, an unreadable id on the triggering entity, and a loaded
   * entity whose id is null (Map.entry rejects a null key).
   */
  datatype ListenerError = NoIdField | IdNotAccessible | NullIdKey

  /** One pair wired by the walk: `head.child := next` and `next.parent := head`. */
  datatype Link = Link(head: Entity, next: Entity)

  /**
   * What the database returns for one annotated field: the recursive ids
   * (none of them NULL), and the entities loaded for them.
   */
  datatype QueryResult = QueryResult(ids: seq<IdValue>, loaded: seq<Entity>)

  /** The two fields doSetDeclaredField writes. */
  datatype LinkField = ChildField | ParentField

  // ---------------------------------------------------------------------
  // The lookup map
  // ---------------------------------------------------------------------

  /**
   * The id-to-entity map built from the loaded entities, in order: an
   * entity whose id cannot be read is skipped; a later entity with the
   * same id replaces an earlier one.
   */
  function LookupSpec(loaded: seq<Entity>): (r: Result<map<IdValue, Entity>, ListenerError>)
    ensures r.Ok? ==> forall k :: k in r.value ==> r.value[k] in loaded && r.value[k].idReadable && r.value[k].id == Some(k)
    ensures r.Ok? ==> forall o :: o in loaded && o.idReadable ==> o.id.Some? && o.id.value in r.value
    ensures r.Err? <==> exists o :: o in loaded && (RetrieveIdField(o.cls, JakartaId).None? || (o.idReadable && o.id.None?))
    decreases |loaded|
  {
    if loaded == [] then Ok(map[])
    else
      var prefix := LookupSpec(loaded[..|loaded| - 1]);
      var o := loaded[|loaded| - 1];
      if prefix.Err? then prefix
      else if RetrieveIdField(o.cls, JakartaId).None? then Err(NoIdField)
      else if !o.idReadable then prefix
      else if o.id.None? then Err(NullIdKey)
      else Ok(prefix.value[o.id.value := o])
  }

  /** The lookup map of `onPostLoad`, built by streaming the loaded entities. */
  method BuildLookup(loaded: seq<Entity>) returns (r: Result<map<IdValue, Entity>, ListenerError>)
    ensures r == LookupSpec(loaded)
  {
    var q: map<IdValue, Entity> := map[];
    var i := 0;
    while i < |loaded|
      invariant 0 <= i <= |loaded|
      invariant LookupSpec(loaded[..i]) == Ok(q)
    {
      var o := loaded[i];
      assert loaded[..i + 1][..i] == loaded[..i];
      var idField := RetrieveIdField(o.cls, JakartaId);
      if idField.None? {
        assert LookupSpec(loaded[..i + 1]) == Err(NoIdField);
        r := Err(NoIdField);
        assert LookupSpec(loaded) == r by { LookupStopsAtError(loaded, i + 1); }
        return;
      }
      if o.idReadable {
        if o.id.None? {
          r := Err(NullIdKey);
          assert LookupSpec(loaded[..i + 1]) == r;
          assert LookupSpec(loaded) == r by { LookupStopsAtError(loaded, i + 1); }
          return;
        }
        q := q[o.id.value := o];
      }
      i := i + 1;
    }
    assert loaded[..i] == loaded;
    r := Ok(q);
  }

  /** Once an entity fails, the rest of the stream does not matter. */
  lemma {:induction false} LookupStopsAtError(loaded: seq<Entity>, j: nat)
    requires j <= |loaded| && LookupSpec(loaded[..j]).Err?
    ensures LookupSpec(loaded) == LookupSpec(loaded[..j])
    decreases |loaded| - j
  {
    if j < |loaded| {
      assert loaded[..j + 1][..j] == loaded[..j];
      LookupStopsAtError(loaded, j + 1);
    } else {
      assert loaded[..j] == loaded;
    }
  }

  // ---------------------------------------------------------------------
  // The linking walk
  // ---------------------------------------------------------------------

  /** `q.get(id)`: null for an id the map does not hold. */
  function Get(lookup: map<IdValue, Entity>, id: IdValue): (e: Entity?)
    ensures e != null <==> id in lookup
    ensures e != null ==> e in lookup.Values
  {
    if id in lookup then lookup[id] else null
  }

  /**
   * The head when the i-th id is visited: the triggering entity first, then
   * whatever the previous id looked up, null included.
   */
  function HeadAt(entity: Entity, ids: seq<IdValue>, lookup: map<IdValue, Entity>, i: nat): (h: Entity?)
    requires i <= |ids|
    ensures h == null || h == entity || h in lookup.Values
  {
    if i == 0 then entity else Get(lookup, ids[i - 1])
  }

  /** The link made at the i-th id, if any: both ends present and distinct. */
  function StepLink(entity: Entity, ids: seq<IdValue>, lookup: map<IdValue, Entity>, i: nat): (r: seq<Link>)
    requires i < |ids|
    ensures |r| <= 1
  {
    var h := HeadAt(entity, ids, lookup, i);
    var n := Get(lookup, ids[i]);
    if n != null && h != null && h != n then [Link(h, n)] else []
  }

  /** The links made while visiting the first n ids, in order. */
  function Links(entity: Entity, ids: seq<IdValue>, lookup: map<IdValue, Entity>, n: nat): (r: seq<Link>)
    requires n <= |ids|
    ensures |r| <= n
  {
    if n == 0 then [] else Links(entity, ids, lookup, n - 1) + StepLink(entity, ids, lookup, n - 1)
  }

  /**
   * Every link the walk makes joins two distinct entities: its head is the
   * triggering entity or a looked-up one, and its next is a looked-up one.
   */
  lemma {:induction false} LinksWithin(entity: Entity, ids: seq<IdValue>, lookup: map<IdValue, Entity>, n: nat)
    requires n <= |ids|
    ensures forall l :: l in Links(entity, ids, lookup, n) ==> l.head != l.next
    ensures forall l :: l in Links(entity, ids, lookup, n) ==>
              (l.head == entity || l.head in lookup.Values) && l.next in lookup.Values
  {
    if n > 0 {
      LinksWithin(entity, ids, lookup, n - 1);
    }
  }

  /** An entity's `child` after a sequence of links: the last link it heads, else its initial value. */
  function ChildAfter(links: seq<Link>, o: Entity, init: Entity?): Entity? {
    if links == [] then init
    else if links[|links| - 1].head == o then links[|links| - 1].next
    else ChildAfter(links[..|links| - 1], o, init)
  }

  /** An entity's `parent` after a sequence of links: the head of the last link into it, else its initial value. */
  function ParentAfter(links: seq<Link>, o: Entity, init: Entity?): Entity? {
    if links == [] then init
    else if links[|links| - 1].next == o then links[|links| - 1].head
    else ParentAfter(links[..|links| - 1], o, init)
  }

  /** Links applied in two batches have the effect of the concatenated batch. */
  lemma {:induction false} AfterAppend(a: seq<Link>, b: seq<Link>, o: Entity, child: Entity?, parent: Entity?)
    ensures ChildAfter(a + b, o, child) == ChildAfter(b, o, ChildAfter(a, o, child))
    ensures ParentAfter(a + b, o, parent) == ParentAfter(b, o, ParentAfter(a, o, parent))
    decreases |b|
  {
    if b != [] {
      assert (a + b)[..|a + b| - 1] == a + b[..|b| - 1];
      AfterAppend(a, b[..|b| - 1], o, child, parent);
    } else {
      assert a + b == a;
    }
  }

  /** An entity no link mentions keeps its fields. */
  lemma {:induction false} AfterUntouched(links: seq<Link>, o: Entity, child: Entity?, parent: Entity?)
    requires forall l :: l in links ==> l.head != o && l.next != o
    ensures ChildAfter(links, o, child) == child
    ensures ParentAfter(links, o, parent) == parent
  {
    if links != [] {
      AfterUntouched(links[..|links| - 1], o, child, parent);
    }
  }

  /** No entity becomes its own child or its own parent through the walk. */
  lemma {:induction false} NeverOwnChildOrParent(links: seq<Link>, o: Entity, child: Entity?, parent: Entity?)
    requires forall l :: l in links ==> l.head != l.next
    requires child != o && parent != o
    ensures ChildAfter(links, o, child) != o
    ensures ParentAfter(links, o, parent) != o
  {
    if links != [] {
      var rest := links[..|links| - 1];
      assert forall l :: l in rest ==> l in links;
      NeverOwnChildOrParent(rest, o, child, parent);
    }
  }

  /** A miss at the i-th id leaves the next id with a null head, so it is linked to nothing. */
  lemma MissBreaksChain(entity: Entity, ids: seq<IdValue>, lookup: map<IdValue, Entity>, i: nat)
    requires i + 1 < |ids| && ids[i] !in lookup
    ensures StepLink(entity, ids, lookup, i) == []
    ensures HeadAt(entity, ids, lookup, i + 1) == null
    ensures StepLink(entity, ids, lookup, i + 1) == []
  {
  }

  /**
   * When every id is found and each lookup differs from the head before it,
   * every visited id makes exactly one link, from the previous head to it:
   * the walk builds a chain.
   */
  lemma {:induction false} ChainWhenAllFound(entity: Entity, ids: seq<IdValue>, lookup: map<IdValue, Entity>, n: nat)
    requires n <= |ids|
    requires forall i :: 0 <= i < n ==> ids[i] in lookup
    requires forall i :: 0 <= i < n ==> Get(lookup, ids[i]) != HeadAt(entity, ids, lookup, i)
    ensures |Links(entity, ids, lookup, n)| == n
    ensures forall i :: 0 <= i < n ==>
              Links(entity, ids, lookup, n)[i].head == HeadAt(entity, ids, lookup, i)
              && Links(entity, ids, lookup, n)[i].next == Get(lookup, ids[i])
  {
    if n > 0 {
      ChainWhenAllFound(entity, ids, lookup, n - 1);
      var last := Link(HeadAt(entity, ids, lookup, n - 1), Get(lookup, ids[n - 1]));
      assert StepLink(entity, ids, lookup, n - 1) == [last];
      assert Links(entity, ids, lookup, n) == Links(entity, ids, lookup, n - 1) + [last];
    }
  }

  /** Along a chain of distinct found entities, the i-th one's parent is the head it was visited with. */
  lemma {:induction false} ChainParents(entity: Entity, ids: seq<IdValue>, lookup: map<IdValue, Entity>,
                                         n: nat, i: nat, parent: Entity?)
    requires i < n <= |ids|
    requires forall j :: 0 <= j < n ==> ids[j] in lookup && lookup[ids[j]] != entity
    requires forall j, k :: 0 <= j < k < n ==> lookup[ids[j]] != lookup[ids[k]]
    ensures ParentAfter(Links(entity, ids, lookup, n), lookup[ids[i]], parent) == HeadAt(entity, ids, lookup, i)
  {
    var links := Links(entity, ids, lookup, n);
    ChainStep(entity, ids, lookup, n);
    assert links[..|links| - 1] == Links(entity, ids, lookup, n - 1);
    if i < n - 1 {
      ChainParents(entity, ids, lookup, n - 1, i, parent);
    }
  }

  /** Along a chain of distinct found entities, the head the i-th one was visited with has it as child. */
  lemma {:induction false} ChainChildren(entity: Entity, ids: seq<IdValue>, lookup: map<IdValue, Entity>,
                                          n: nat, i: nat, child: Entity?)
    requires i < n <= |ids|
    requires forall j :: 0 <= j < n ==> ids[j] in lookup && lookup[ids[j]] != entity
    requires forall j, k :: 0 <= j < k < n ==> lookup[ids[j]] != lookup[ids[k]]
    ensures ChildAfter(Links(entity, ids, lookup, n), HeadAt(entity, ids, lookup, i), child) == lookup[ids[i]]
  {
    var links := Links(entity, ids, lookup, n);
    ChainStep(entity, ids, lookup, n);
    assert links[..|links| - 1] == Links(entity, ids, lookup, n - 1);
    if i < n - 1 {
      assert HeadAt(entity, ids, lookup, n - 1) == lookup[ids[n - 2]];
      assert i == 0 || HeadAt(entity, ids, lookup, i) == lookup[ids[i - 1]];
      ChainChildren(entity, ids, lookup, n - 1, i, child);
    }
  }

  /** The last step of a chain of distinct found entities links the previous head to the last entity. */
  lemma ChainStep(entity: Entity, ids: seq<IdValue>, lookup: map<IdValue, Entity>, n: nat)
    requires 0 < n <= |ids|
    requires forall j :: 0 <= j < n ==> ids[j] in lookup && lookup[ids[j]] != entity
    requires forall j, k :: 0 <= j < k < n ==> lookup[ids[j]] != lookup[ids[k]]
    ensures Links(entity, ids, lookup, n)
            == Links(entity, ids, lookup, n - 1) + [Link(HeadAt(entity, ids, lookup, n - 1), lookup[ids[n - 1]])]
  {
    if n > 1 {
      assert HeadAt(entity, ids, lookup, n - 1) == lookup[ids[n - 2]];
    }
  }

  /**
   * When the first id looks up the triggering entity itself (the recursive
   * query returning the root row), that id makes no link and the walk goes
   * on exactly as if the query had started at the second id.
   */
  lemma {:induction false} RootFirstSkipped(entity: Entity, ids: seq<IdValue>, lookup: map<IdValue, Entity>, n: nat)
    requires 0 < n <= |ids|
    requires Get(lookup, ids[0]) == entity
    ensures Links(entity, ids, lookup, n) == Links(entity, ids[1..], lookup, n - 1)
  {
    if n == 1 {
      assert StepLink(entity, ids, lookup, 0) == [];
    } else {
      RootFirstSkipped(entity, ids, lookup, n - 1);
      assert HeadAt(entity, ids, lookup, n - 1) == HeadAt(entity, ids[1..], lookup, n - 2);
      assert StepLink(entity, ids, lookup, n - 1) == StepLink(entity, ids[1..], lookup, n - 2);
    }
  }

  /** doSetDeclaredField: reflective assignment of one link field. */
  method DoSetDeclaredField(target: Entity, field: LinkField, value: Entity?)
    modifies target
    ensures field == ChildField ==> target.child == value && target.parent == old(target.parent)
    ensures field == ParentField ==> target.parent == value && target.child == old(target.child)
  {
    match field
    case ChildField => target.child := value;
    case ParentField => target.parent := value;
  }

  /** The entities the walk may write: the triggering entity and every looked-up one. */
  function Touched(entity: Entity, lookup: map<IdValue, Entity>): set<Entity> {
    {entity} + lookup.Values
  }

  /**
   * The body of the walk at the i-th id: look the id up and, when both it
   * and the head are present and distinct, make it the head's child and the
   * head its parent. The looked-up entity is the next head.
   */
  method Attach(entity: Entity, ghost ids: seq<IdValue>, lookup: map<IdValue, Entity>, ghost i: nat,
                commit: IdValue, nextHead: Entity?)
    returns (nextCommit: Entity?)
    requires i < |ids| && ids[i] == commit && nextHead == HeadAt(entity, ids, lookup, i)
    modifies Touched(entity, lookup)
    ensures nextCommit == HeadAt(entity, ids, lookup, i + 1)
    ensures forall o {:trigger o in Touched(entity, lookup)} :: o in Touched(entity, lookup) ==>
              o.child == ChildAfter(StepLink(entity, ids, lookup, i), o, old(o.child))
              && o.parent == ParentAfter(StepLink(entity, ids, lookup, i), o, old(o.parent))
  {
    nextCommit := Get(lookup, commit);
    var finalNextHead := nextHead;
    if nextCommit != null && finalNextHead != null {
      if finalNextHead != nextCommit {
        DoSetDeclaredField(finalNextHead, ChildField, nextCommit);
        DoSetDeclaredField(nextCommit, ParentField, finalNextHead);
        forall o | o in Touched(entity, lookup)
          ensures o.child == ChildAfter([Link(finalNextHead, nextCommit)], o, old(o.child))
          ensures o.parent == ParentAfter([Link(finalNextHead, nextCommit)], o, old(o.parent))
        {
          AfterOne(Link(finalNextHead, nextCommit), o, old(o.child), old(o.parent));
        }
      }
    }
  }

  /** A single link sets its head's child and its next's parent. */
  lemma AfterOne(l: Link, o: Entity, child: Entity?, parent: Entity?)
    ensures ChildAfter([l], o, child) == if l.head == o then l.next else child
    ensures ParentAfter([l], o, parent) == if l.next == o then l.head else parent
  {
    assert [l][..0] == [];
  }

  /** Two batches of links applied one after the other, stated on the three values of one entity's fields. */
  lemma Compose(before: seq<Link>, batch: seq<Link>, o: Entity, c0: Entity?, c1: Entity?, c2: Entity?,
                p0: Entity?, p1: Entity?, p2: Entity?)
    requires c1 == ChildAfter(before, o, c0) && c2 == ChildAfter(batch, o, c1)
    requires p1 == ParentAfter(before, o, p0) && p2 == ParentAfter(batch, o, p1)
    ensures c2 == ChildAfter(before + batch, o, c0) && p2 == ParentAfter(before + batch, o, p0)
  {
    AfterAppend(before, batch, o, c0, p0);
  }

  /** Every key of `c0` holds, in its fields, `links` applied to its values in `c0` and `p0`. */
  ghost predicate Applied(links: seq<Link>, c0: map<Entity, Entity?>, p0: map<Entity, Entity?>)
    reads c0.Keys
  {
    forall o {:trigger o in c0} :: o in c0 ==>
      o in p0 && o.child == ChildAfter(links, o, c0[o]) && o.parent == ParentAfter(links, o, p0[o])
  }

  /** One turn of the walk: Attach, stated against the fields as they were before the walk began. */
  method Advance(entity: Entity, ghost ids: seq<IdValue>, lookup: map<IdValue, Entity>, ghost i: nat,
                 commit: IdValue, nextHead: Entity?, ghost done: seq<Link>,
                 ghost c0: map<Entity, Entity?>, ghost p0: map<Entity, Entity?>)
    returns (nextCommit: Entity?)
    requires i < |ids| && ids[i] == commit && nextHead == HeadAt(entity, ids, lookup, i)
    requires c0.Keys == Touched(entity, lookup) && Applied(done, c0, p0)
    modifies Touched(entity, lookup)
    ensures nextCommit == HeadAt(entity, ids, lookup, i + 1)
    ensures Applied(done + StepLink(entity, ids, lookup, i), c0, p0)
  {
    ghost var step := StepLink(entity, ids, lookup, i);
    nextCommit := Attach(entity, ids, lookup, i, commit, nextHead);
    forall o | o in c0
      ensures o in p0
      ensures o.child == ChildAfter(done + step, o, c0[o])
      ensures o.parent == ParentAfter(done + step, o, p0[o])
    {
      Compose(done, step, o, c0[o], old(o.child), o.child, p0[o], old(o.parent), o.parent);
    }
  }

  /** The `while` loop of the walk, stated against the snapshot `c0`/`p0` of the fields before it. */
  method Walk(entity: Entity, ids: seq<IdValue>, lookup: map<IdValue, Entity>,
              ghost c0: map<Entity, Entity?>, ghost p0: map<Entity, Entity?>)
    requires c0.Keys == Touched(entity, lookup) && Applied([], c0, p0)
    modifies Touched(entity, lookup)
    ensures Applied(Links(entity, ids, lookup, |ids|), c0, p0)
  {
    var nextHead: Entity? := entity;
    var i := 0;
    ghost var done: seq<Link> := [];
    while i < |ids|
      invariant 0 <= i <= |ids|
      invariant nextHead == HeadAt(entity, ids, lookup, i)
      invariant done == Links(entity, ids, lookup, i)
      invariant Applied(done, c0, p0)
    {
      nextHead := Advance(entity, ids, lookup, i, ids[i], nextHead, done, c0, p0);
      done := done + StepLink(entity, ids, lookup, i);
      i := i + 1;
    }
  }

  /** The `while` walk of onPostLoad for one annotated field. */
  method LinkChain(entity: Entity, ids: seq<IdValue>, lookup: map<IdValue, Entity>)
    modifies Touched(entity, lookup)
    ensures forall o {:trigger o in Touched(entity, lookup)} :: o in Touched(entity, lookup) ==>
              o.child == ChildAfter(Links(entity, ids, lookup, |ids|), o, old(o.child))
              && o.parent == ParentAfter(Links(entity, ids, lookup, |ids|), o, old(o.parent))
  {
    ghost var touched: set<Entity> := Touched(entity, lookup);
    ghost var c0 := map o | o in touched :: o.child;
    ghost var p0 := map o | o in touched :: o.parent;
    assert c0.Keys == touched;
    Walk(entity, ids, lookup, c0, p0);
    ghost var done := Links(entity, ids, lookup, |ids|);
    forall o | o in touched
      ensures o.child == ChildAfter(done, o, old(o.child)) && o.parent == ParentAfter(done, o, old(o.parent))
    {
      assert o in c0;
    }
  }

  // ---------------------------------------------------------------------
  // onPostLoad
  // ---------------------------------------------------------------------

  /** The entities of a sequence, as a set. */
  function Members(s: seq<Entity>): (r: set<Entity>)
    ensures forall o :: o in s ==> o in r
    ensures forall o :: o in r ==> o in s
  {
    if s == [] then {} else Members(s[..|s| - 1]) + {s[|s| - 1]}
  }

  /** Every entity loaded for any annotated field. */
  function AllLoaded(results: seq<QueryResult>): (r: set<Entity>)
    ensures forall i, o :: 0 <= i < |results| && o in results[i].loaded ==> o in r
  {
    if results == [] then {}
    else
      var r := AllLoaded(results[..|results| - 1]) + Members(results[|results| - 1].loaded);
      assert forall i :: 0 <= i < |results| - 1 ==> results[..|results| - 1][i] == results[i];
      r
  }

  /** One annotated field: the id field and its value are read, the lookup is built, and the walk's links result. */
  function FieldPlan(entity: Entity, q: QueryResult): (r: Result<seq<Link>, ListenerError>)
    ensures RetrieveIdField(entity.cls, JakartaId).None? ==> r == Err(NoIdField)
    ensures RetrieveIdField(entity.cls, JakartaId).Some? && !entity.idReadable ==> r == Err(IdNotAccessible)
    ensures r.Ok? <==> RetrieveIdField(entity.cls, JakartaId).Some? && entity.idReadable && LookupSpec(q.loaded).Ok?
    ensures RetrieveIdField(entity.cls, JakartaId).Some? && entity.idReadable && LookupSpec(q.loaded).Err?
            ==> r == Err(LookupSpec(q.loaded).error)
    ensures r.Ok? ==> r.value == Links(entity, q.ids, LookupSpec(q.loaded).value, |q.ids|)
  {
    if RetrieveIdField(entity.cls, JakartaId).None? then Err(NoIdField)
    else if !entity.idReadable then Err(IdNotAccessible)
    else match LookupSpec(q.loaded)
      case Err(e) => Err(e)
      case Ok(m) => Ok(Links(entity, q.ids, m, |q.ids|))
  }

  /** The links one annotated field contributes: none when it fails. */
  function FieldLinks(entity: Entity, q: QueryResult): seq<Link> {
    if FieldPlan(entity, q).Ok? then FieldPlan(entity, q).value else []
  }

  /**
   * The declared fields in order, `results[f]` being the query results for
   * field f (ignored when the field is not annotated OneToOneRecursive): the
   * links made so far, and the error that stopped the listener, if any.
   */
  function Plan(entity: Entity, results: seq<QueryResult>): (seq<Link>, Option<ListenerError>)
    requires |results| <= |entity.cls.fields|
  {
    if results == [] then ([], None)
    else
      var f := |results| - 1;
      var before := Plan(entity, results[..f]);
      if before.1.Some? || !HasAnnotation(entity.cls.fields[f], OneToOneRecursive) then before
      else match FieldPlan(entity, results[f])
        case Err(e) => (before.0, Some(e))
        case Ok(links) => (before.0 + links, None)
  }

  /** Once a field fails, later fields are not processed. */
  lemma {:induction false} PlanStopsAtError(entity: Entity, results: seq<QueryResult>, j: nat)
    requires j <= |results| <= |entity.cls.fields| && Plan(entity, results[..j]).1.Some?
    ensures Plan(entity, results) == Plan(entity, results[..j])
    decreases |results| - j
  {
    if j < |results| {
      assert results[..j + 1][..j] == results[..j];
      PlanStopsAtError(entity, results, j + 1);
    } else {
      assert results[..j] == results;
    }
  }

  /** Processing one more declared field. */
  lemma PlanStep(entity: Entity, results: seq<QueryResult>, f: nat)
    requires f < |results| <= |entity.cls.fields| && Plan(entity, results[..f]).1.None?
    ensures !HasAnnotation(entity.cls.fields[f], OneToOneRecursive) ==>
              Plan(entity, results[..f + 1]) == Plan(entity, results[..f])
    ensures HasAnnotation(entity.cls.fields[f], OneToOneRecursive) && FieldPlan(entity, results[f]).Ok? ==>
              Plan(entity, results[..f + 1]) == (Plan(entity, results[..f]).0 + FieldLinks(entity, results[f]), None)
    ensures HasAnnotation(entity.cls.fields[f], OneToOneRecursive) && FieldPlan(entity, results[f]).Err? ==>
              Plan(entity, results[..f + 1]) == (Plan(entity, results[..f]).0, Some(FieldPlan(entity, results[f]).error))
  {
    assert results[..f + 1][..f] == results[..f];
  }

  /** The entities loaded for one field are among all loaded entities. */
  lemma LoadedInAll(results: seq<QueryResult>, f: nat)
    requires f < |results|
    ensures forall o :: o in results[f].loaded ==> o in AllLoaded(results)
  {
  }

  /**
   * The body of onPostLoad's loop for the annotated field f, whose query
   * results are `results[f]`, after `links` were made for the fields before
   * it. Its effect is stated for the triggering entity and for every entity
   * of `results`.
   */
  method HandleField(entity: Entity, results: seq<QueryResult>, f: nat, ghost links: seq<Link>)
    returns (err: Option<ListenerError>, ghost more: seq<Link>)
    requires f < |results| <= |entity.cls.fields| && HasAnnotation(entity.cls.fields[f], OneToOneRecursive)
    requires Plan(entity, results[..f]) == (links, None)
    modifies entity, results[f].loaded
    ensures err.None? <==> FieldPlan(entity, results[f]).Ok?
    ensures err.None? ==> Plan(entity, results[..f + 1]) == (links + more, None)
    ensures err.Some? ==> Plan(entity, results) == (links, err) && more == []
    ensures entity.child == ChildAfter(more, entity, old(entity.child))
    ensures entity.parent == ParentAfter(more, entity, old(entity.parent))
    ensures forall i, j :: 0 <= i < |results| && 0 <= j < |results[i].loaded| ==>
              results[i].loaded[j].child == ChildAfter(more, results[i].loaded[j], old(results[i].loaded[j].child))
              && results[i].loaded[j].parent == ParentAfter(more, results[i].loaded[j], old(results[i].loaded[j].parent))
  {
    var q := results[f];
    PlanStep(entity, results, f);
    var idField := RetrieveIdField(entity.cls, JakartaId);
    if idField.None? {
      PlanStopsAtError(entity, results, f + 1);
      return Some(NoIdField), [];
    }
    if !entity.idReadable {
      PlanStopsAtError(entity, results, f + 1);
      return Some(IdNotAccessible), [];
    }
    var lookup := BuildLookup(q.loaded);
    if lookup.Err? {
      PlanStopsAtError(entity, results, f + 1);
      return Some(lookup.error), [];
    }
    WalkField(entity, results, f, lookup.value);
    more := Links(entity, q.ids, lookup.value, |q.ids|);
    assert FieldPlan(entity, q) == Ok(more);
    err := None;
  }

  /**
   * The walk for one field together with its frame: the entities it
   * touches change as its links say, every other loaded entity keeps its
   * fields.
   */
  method WalkField(entity: Entity, results: seq<QueryResult>, f: nat, lookup: map<IdValue, Entity>)
    requires f < |results|
    requires forall o :: o in lookup.Values ==> o in results[f].loaded
    modifies entity, results[f].loaded
    ensures entity.child == ChildAfter(Links(entity, results[f].ids, lookup, |results[f].ids|), entity, old(entity.child))
    ensures entity.parent == ParentAfter(Links(entity, results[f].ids, lookup, |results[f].ids|), entity, old(entity.parent))
    ensures forall i, j :: 0 <= i < |results| && 0 <= j < |results[i].loaded| ==>
              results[i].loaded[j].child
                == ChildAfter(Links(entity, results[f].ids, lookup, |results[f].ids|), results[i].loaded[j], old(results[i].loaded[j].child))
              && results[i].loaded[j].parent
                == ParentAfter(Links(entity, results[f].ids, lookup, |results[f].ids|), results[i].loaded[j], old(results[i].loaded[j].parent))
  {
    var ids := results[f].ids;
    LinkChain(entity, ids, lookup);
    ghost var made := Links(entity, ids, lookup, |ids|);
    LinksWithin(entity, ids, lookup, |ids|);
    assert entity in Touched(entity, lookup);
    forall i, j | 0 <= i < |results| && 0 <= j < |results[i].loaded|
      ensures results[i].loaded[j].child == ChildAfter(made, results[i].loaded[j], old(results[i].loaded[j].child))
      ensures results[i].loaded[j].parent == ParentAfter(made, results[i].loaded[j], old(results[i].loaded[j].parent))
    {
      var o := results[i].loaded[j];
      if o !in Touched(entity, lookup) {
        AfterUntouched(made, o, old(o.child), old(o.parent));
      }
    }
  }

  /**
   * onPostLoad: for each declared field of the entity's class annotated
   * OneToOneRecursive, in declaration order, run the walk with that field's
   * query results. The fields end as the planned links leave them, and the
   * listener fails exactly when the plan records an error.
   */
  method OnPostLoad(entity: Entity, results: seq<QueryResult>) returns (r: Result<(), ListenerError>)
    requires |results| == |entity.cls.fields|
    modifies entity, AllLoaded(results)
    ensures r.Err? <==> Plan(entity, results).1.Some?
    ensures r.Err? ==> r.error == Plan(entity, results).1.value
    ensures entity.child == ChildAfter(Plan(entity, results).0, entity, old(entity.child))
    ensures entity.parent == ParentAfter(Plan(entity, results).0, entity, old(entity.parent))
    ensures forall i, j :: 0 <= i < |results| && 0 <= j < |results[i].loaded| ==>
              results[i].loaded[j].child == ChildAfter(Plan(entity, results).0, results[i].loaded[j], old(results[i].loaded[j].child))
              && results[i].loaded[j].parent == ParentAfter(Plan(entity, results).0, results[i].loaded[j], old(results[i].loaded[j].parent))
  {
    var fields := entity.cls.fields;
    var f := 0;
    ghost var links: seq<Link> := [];
    while f < |fields|
      invariant 0 <= f <= |fields|
      invariant Plan(entity, results[..f]) == (links, None)
      invariant entity.child == ChildAfter(links, entity, old(entity.child))
      invariant entity.parent == ParentAfter(links, entity, old(entity.parent))
      invariant forall i, j :: 0 <= i < |results| && 0 <= j < |results[i].loaded| ==>
                  results[i].loaded[j].child == ChildAfter(links, results[i].loaded[j], old(results[i].loaded[j].child))
                  && results[i].loaded[j].parent == ParentAfter(links, results[i].loaded[j], old(results[i].loaded[j].parent))
    {
      if HasAnnotation(fields[f], OneToOneRecursive) {
        LoadedInAll(results, f);
        var err;
        ghost var more;
        err, more := HandleField(entity, results, f, links);
        if err.Some? {
          r := Err(err.value);
          return;
        }
        AfterAppend(links, more, entity, old(entity.child), old(entity.parent));
        forall i, j | 0 <= i < |results| && 0 <= j < |results[i].loaded|
          ensures results[i].loaded[j].child == ChildAfter(links + more, results[i].loaded[j], old(results[i].loaded[j].child))
          ensures results[i].loaded[j].parent == ParentAfter(links + more, results[i].loaded[j], old(results[i].loaded[j].parent))
        {
          var o := results[i].loaded[j];
          AfterAppend(links, more, o, old(o.child), old(o.parent));
        }
        links := links + more;
      } else {
        PlanStep(entity, results, f);
      }
      f := f + 1;
    }
    assert results[..f] == results;
    r := Ok(());
  }
}
