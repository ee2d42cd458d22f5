/**
 * RecursiveLoadListener: after an entity is loaded, for each of its fields
 * annotated OneToManyRecursive, the (id, level) rows a recursive SQL query
 * returns are grouped by level, the levels are visited in ascending order,
 * and each found entity is appended to the children of the entity visited
 * before it, which also becomes its parent.
 *
 * The SQL query and the entity query are inputs: per declared field, the
 * rows the recursive query returned and the entities loaded for them.
 */
module RecursiveOneToMany {
  import opened Wrappers
  import opened Meta
  import opened JavaNumbers

  /** A loaded entity: its runtime class, its (Long) id, and the two fields the listener writes. */
  class Entity {
    const cls: ClassDecl
    const id: Option<int>
    /** Whether reflection may read the id field; reading it otherwise throws IllegalAccessException. */
    const idReadable: bool
    var children: Children
    var parent: Entity?

    constructor (cls: ClassDecl, id: Option<int>, idReadable: bool, children: Children)
      ensures this.cls == cls && this.id == id && this.idReadable == idReadable
      ensures this.children == children && parent == null
    {
      this.cls := cls;
      this.id := id;
      this.idReadable := idReadable;
      this.children := children;
      parent := null;
    }
  }

  /**
   * The value held in the children field: null, Hibernate's PersistentBag,
   * any other (modifiable) java.util.List, or a value that is not a List.
   */
  datatype Children = NullChildren | Bag(items: seq<Entity>) | OtherList(items: seq<Entity>) | NotAList

  /**
   * The exceptions that abort the listener: no id field, an unreadable id on
   * the triggering entity, a level that Integer.parseInt rejects, and a
   * loaded entity whose id is null (its toString throws).
   */
  datatype ListenerError = NoIdField | IdNotAccessible | NumberFormat | NullIdKey

  /** One row of the recursive query: the id and level columns, as strings (the id is never NULL). */
  datatype Row = Row(id: string, level: string)

  /** What the database returns for one annotated field. */
  datatype QueryResult = QueryResult(rows: seq<Row>, loaded: seq<Entity>)

  /** One addition made by the walk: `next` joins `head`'s children and gets `head` as parent. */
  datatype Link = Link(head: Entity, next: Entity)

  /** The ids of one level, in row order. */
  datatype LevelGroup<K> = LevelGroup(level: int, ids: seq<K>)

  // ---------------------------------------------------------------------
  // doSetDeclaredField / doSetDeclaredFieldOne
  // ---------------------------------------------------------------------

  /** The entities a children value holds, in order. */
  function Items(c: Children): seq<Entity> {
    match c
    case NullChildren => []
    case Bag(items) => items
    case OtherList(items) => items
    case NotAList => []
  }

  /**
   * The children value after adding one entity: null and an empty bag are
   * replaced by a fresh one-element list, a non-empty bag or other list is
   * appended to, and any other value is left as it is.
   */
  function AddChild(c: Children, e: Entity): (r: Children)
    ensures c.NotAList? <==> r.NotAList?
    ensures !c.NotAList? ==> Items(r) == Items(c) + [e]
    ensures c.Bag? && c.items != [] ==> r.Bag?
  {
    match c
    case NullChildren => OtherList([e])
    case Bag(items) => if items == [] then OtherList([e]) else Bag(items + [e])
    case OtherList(items) => OtherList(items + [e])
    case NotAList => c
  }

  /** doSetDeclaredField: add `value` to `target`'s children. */
  method DoSetDeclaredField(target: Entity, value: Entity)
    modifies target
    ensures target.children == AddChild(old(target.children), value)
    ensures target.parent == old(target.parent)
  {
    var toGet := target.children;
    match toGet {
      case NullChildren =>
        target.children := OtherList([value]);
      case Bag(b) =>
        if b == [] {
          target.children := OtherList([value]);
        } else {
          target.children := Bag(b + [value]);
        }
      case OtherList(l) =>
        target.children := OtherList(l + [value]);
      case NotAList =>
    }
  }

  /** doSetDeclaredFieldOne: set `target`'s parent. */
  method DoSetDeclaredFieldOne(target: Entity, value: Entity)
    modifies target
    ensures target.parent == value
    ensures target.children == old(target.children)
  {
    target.parent := value;
  }

  // ---------------------------------------------------------------------
  // Grouping the rows by level
  // ---------------------------------------------------------------------

  /** The rows with their levels parsed by Integer.parseInt, or NumberFormat at the first level it rejects. */
  function ParseLevels(rows: seq<Row>): (r: Result<seq<(int, string)>, ListenerError>)
    ensures r.Ok? <==> forall i :: 0 <= i < |rows| ==> ParseInt(rows[i].level).Some?
    ensures r.Ok? ==> |r.value| == |rows|
    ensures r.Ok? ==> forall i :: 0 <= i < |rows| ==> r.value[i] == (ParseInt(rows[i].level).value, rows[i].id)
    ensures r.Err? ==> r.error == NumberFormat
  {
    if rows == [] then Ok([])
    else
      var prefix := ParseLevels(rows[..|rows| - 1]);
      var last := rows[|rows| - 1];
      if prefix.Err? then prefix
      else match ParseInt(last.level)
        case None => Err(NumberFormat)
        case Some(level) => Ok(prefix.value + [(level, last.id)])
  }

  /** Strictly ascending levels. */
  predicate Ascending<K>(groups: seq<LevelGroup<K>>) {
    forall i, j :: 0 <= i < j < |groups| ==> groups[i].level < groups[j].level
  }

  /** The ids grouped under a level; empty when there is no such group. */
  function IdsOf<K>(groups: seq<LevelGroup<K>>, level: int): seq<K> {
    if groups == [] then []
    else if groups[0].level == level then groups[0].ids
    else IdsOf(groups[1..], level)
  }

  /** The ids of the entries at a level, in entry order. */
  function IdsAt<K>(entries: seq<(int, K)>, level: int): seq<K> {
    if entries == [] then []
    else
      var last := entries[|entries| - 1];
      IdsAt(entries[..|entries| - 1], level) + if last.0 == level then [last.1] else []
  }

  /** Add one id under its level, keeping the levels ascending. */
  function Insert<K>(groups: seq<LevelGroup<K>>, level: int, id: K): (r: seq<LevelGroup<K>>)
    ensures |r| > 0
    ensures groups != [] && r[0].level != groups[0].level ==> r[0].level == level
  {
    if groups == [] then [LevelGroup(level, [id])]
    else if groups[0].level == level then [LevelGroup(level, groups[0].ids + [id])] + groups[1..]
    else if groups[0].level > level then [LevelGroup(level, [id])] + groups
    else [groups[0]] + Insert(groups[1..], level, id)
  }

  /**
   * The level-to-ids map of the listener with its keys sorted: entries are
   * grouped by level in encounter order.
   */
  function GroupByLevel<K>(entries: seq<(int, K)>): seq<LevelGroup<K>> {
    if entries == [] then []
    else
      var last := entries[|entries| - 1];
      Insert(GroupByLevel(entries[..|entries| - 1]), last.0, last.1)
  }

  /** Below the first level of ascending groups there is nothing. */
  lemma {:induction false} IdsOfBelow<K>(groups: seq<LevelGroup<K>>, level: int)
    requires Ascending(groups) && (groups == [] || level < groups[0].level)
    ensures IdsOf(groups, level) == []
  {
    if groups != [] {
      assert Ascending(groups[1..]);
      IdsOfBelow(groups[1..], level);
    }
  }

  /** Insert keeps the levels ascending. */
  lemma {:induction false} InsertAscending<K>(groups: seq<LevelGroup<K>>, level: int, id: K)
    requires Ascending(groups)
    ensures Ascending(Insert(groups, level, id))
  {
    var r := Insert(groups, level, id);
    if groups == [] {
    } else if groups[0].level == level {
      assert r[1..] == groups[1..];
    } else if groups[0].level > level {
      assert r[1..] == groups;
    } else {
      var rest := Insert(groups[1..], level, id);
      assert Ascending(groups[1..]);
      InsertAscending(groups[1..], level, id);
      assert r == [groups[0]] + rest;
      assert groups[0].level < rest[0].level;
      forall i, j | 0 <= i < j < |r|
        ensures r[i].level < r[j].level
      {
        assert r[j] == rest[j - 1];
        if i > 0 {
          assert r[i] == rest[i - 1];
        } else if j > 1 {
          assert rest[0].level < rest[j - 1].level;
        }
      }
    }
  }

  /** Insert adds the id at the end of its own level, and changes no other level. */
  lemma {:induction false} InsertIds<K>(groups: seq<LevelGroup<K>>, level: int, id: K, l: int)
    requires Ascending(groups)
    ensures IdsOf(Insert(groups, level, id), l) == IdsOf(groups, l) + if l == level then [id] else []
  {
    var r := Insert(groups, level, id);
    if groups == [] {
    } else if groups[0].level == level {
      if l != level {
        assert r[1..] == groups[1..];
      }
    } else if groups[0].level > level {
      if l == level {
        IdsOfBelow(groups, level);
      } else {
        assert r[1..] == groups;
      }
    } else if l != groups[0].level {
      assert Ascending(groups[1..]);
      InsertIds(groups[1..], level, id, l);
      assert r[1..] == Insert(groups[1..], level, id);
    }
  }

  /** Insert keeps the levels ascending and adds the id at the end of its level only. */
  lemma InsertSpec<K>(groups: seq<LevelGroup<K>>, level: int, id: K)
    requires Ascending(groups)
    ensures Ascending(Insert(groups, level, id))
    ensures forall l :: IdsOf(Insert(groups, level, id), l) == IdsOf(groups, l) + if l == level then [id] else []
  {
    InsertAscending(groups, level, id);
    forall l
      ensures IdsOf(Insert(groups, level, id), l) == IdsOf(groups, l) + if l == level then [id] else []
    {
      InsertIds(groups, level, id, l);
    }
  }

  /**
   * Grouping puts the levels in ascending order, and each level holds
   * exactly the ids of the entries at that level, in entry order.
   */
  lemma {:induction false} GroupByLevelSpec<K>(entries: seq<(int, K)>)
    ensures Ascending(GroupByLevel(entries))
    ensures forall l :: IdsOf(GroupByLevel(entries), l) == IdsAt(entries, l)
  {
    if entries != [] {
      var prefix := entries[..|entries| - 1];
      var last := entries[|entries| - 1];
      GroupByLevelSpec(prefix);
      InsertSpec(GroupByLevel(prefix), last.0, last.1);
    }
  }

  /** Every group of a grouping is non-empty. */
  lemma {:induction false} GroupsNonEmpty<K>(entries: seq<(int, K)>)
    ensures forall g :: g in GroupByLevel(entries) ==> g.ids != []
  {
    if entries != [] {
      var prefix := entries[..|entries| - 1];
      var last := entries[|entries| - 1];
      GroupsNonEmpty(prefix);
      InsertNonEmpty(GroupByLevel(prefix), last.0, last.1);
    }
  }

  lemma {:induction false} InsertNonEmpty<K>(groups: seq<LevelGroup<K>>, level: int, id: K)
    requires forall g :: g in groups ==> g.ids != []
    ensures forall g :: g in Insert(groups, level, id) ==> g.ids != []
  {
    if groups != [] && groups[0].level < level {
      assert forall g :: g in groups[1..] ==> g in groups;
      InsertNonEmpty(groups[1..], level, id);
    }
  }

  /** The order in which the walk visits row ids: level by level, each level in row order. */
  function Visit<K>(groups: seq<LevelGroup<K>>): seq<K> {
    if groups == [] then [] else Visit(groups[..|groups| - 1]) + groups[|groups| - 1].ids
  }

  // ---------------------------------------------------------------------
  // The lookup map
  // ---------------------------------------------------------------------

  /**
   * The map from the string form of each loaded entity's id to the entity:
   * an entity whose id cannot be read is skipped; a later entity with the
   * same key replaces an earlier one.
   */
  function LookupSpec(loaded: seq<Entity>): (r: Result<map<string, Entity>, ListenerError>)
    ensures r.Ok? ==> forall k :: k in r.value ==>
              r.value[k] in loaded && r.value[k].idReadable && r.value[k].id.Some? && IdString(r.value[k].id.value) == k
    ensures r.Ok? ==> forall o :: o in loaded && o.idReadable ==> o.id.Some? && IdString(o.id.value) in r.value
    ensures r.Err? <==> exists o :: o in loaded && (RetrieveIdField(o.cls, SpringDataId).None? || (o.idReadable && o.id.None?))
    ensures r.Err? ==> r.error != NumberFormat && r.error != IdNotAccessible
    decreases |loaded|
  {
    if loaded == [] then Ok(map[])
    else
      var prefix := LookupSpec(loaded[..|loaded| - 1]);
      var o := loaded[|loaded| - 1];
      if prefix.Err? then prefix
      else if RetrieveIdField(o.cls, SpringDataId).None? then Err(NoIdField)
      else if !o.idReadable then prefix
      else if o.id.None? then Err(NullIdKey)
      else Ok(prefix.value[IdString(o.id.value) := o])
  }

  /** The lookup map of `onPostLoad`, built by streaming the loaded entities. */
  method BuildLookup(loaded: seq<Entity>) returns (r: Result<map<string, Entity>, ListenerError>)
    ensures r == LookupSpec(loaded)
  {
    var q: map<string, Entity> := map[];
    var i := 0;
    while i < |loaded|
      invariant 0 <= i <= |loaded|
      invariant LookupSpec(loaded[..i]) == Ok(q)
    {
      var o := loaded[i];
      assert loaded[..i + 1][..i] == loaded[..i];
      var idField := RetrieveIdField(o.cls, SpringDataId);
      if idField.None? {
        assert LookupSpec(loaded[..i + 1]) == Err(NoIdField);
        r := Err(NoIdField);
        assert LookupSpec(loaded) == r by { LookupStopsAtError(loaded, i + 1); }
        return;
      }
      if o.idReadable {
        if o.id.None? {
          r := Err(NullIdKey);
          assert LookupSpec(loaded[..i + 1]) == r;
          assert LookupSpec(loaded) == r by { LookupStopsAtError(loaded, i + 1); }
          return;
        }
        var key := IdString(o.id.value);
        q := q[key := o];
      }
      i := i + 1;
    }
    assert loaded[..i] == loaded;
    r := Ok(q);
  }

  /** Once an entity fails, the rest of the stream does not matter. */
  lemma {:induction false} LookupStopsAtError(loaded: seq<Entity>, j: nat)
    requires j <= |loaded| && LookupSpec(loaded[..j]).Err?
    ensures LookupSpec(loaded) == LookupSpec(loaded[..j])
    decreases |loaded| - j
  {
    if j < |loaded| {
      assert loaded[..j + 1][..j] == loaded[..j];
      LookupStopsAtError(loaded, j + 1);
    } else {
      assert loaded[..j] == loaded;
    }
  }

  /**
   * A row id finds an entity only when it parses to that entity's id: "42"
   * finds the entity with id 42, "042" and "+42" find nothing.
   */
  lemma LookupByValue(loaded: seq<Entity>, s: string)
    requires LookupSpec(loaded).Ok? && s in LookupSpec(loaded).value
    ensures ParseDecimal(s) == Some(LookupSpec(loaded).value[s].id.value)
    ensures s == IdString(LookupSpec(loaded).value[s].id.value)
  {
    ParseIdString(LookupSpec(loaded).value[s].id.value);
  }

  // ---------------------------------------------------------------------
  // The walk
  // ---------------------------------------------------------------------

  /** `q.get(n.toString())`: null for a key the map does not hold. */
  function Get<K(==)>(lookup: map<K, Entity>, key: K): (e: Entity?)
    ensures e != null <==> key in lookup
    ensures e != null ==> e in lookup.Values
  {
    if key in lookup then lookup[key] else null
  }

  /** The head when the i-th visited id is reached: the triggering entity, then the previous lookup. */
  function HeadAt<K(==)>(entity: Entity, visit: seq<K>, lookup: map<K, Entity>, i: nat): (h: Entity?)
    requires i <= |visit|
    ensures h == null || h == entity || h in lookup.Values
  {
    if i == 0 then entity else Get(lookup, visit[i - 1])
  }

  /** The addition made at the i-th visited id: whenever the lookup and the head are both present. */
  function StepLink<K(==)>(entity: Entity, visit: seq<K>, lookup: map<K, Entity>, i: nat): (r: seq<Link>)
    requires i < |visit|
    ensures |r| <= 1
  {
    var h := HeadAt(entity, visit, lookup, i);
    var n := Get(lookup, visit[i]);
    if n != null && h != null then [Link(h, n)] else []
  }

  /** The additions made while visiting the first n ids, in order. */
  function Links<K(==)>(entity: Entity, visit: seq<K>, lookup: map<K, Entity>, n: nat): (r: seq<Link>)
    requires n <= |visit|
    ensures |r| <= n
  {
    if n == 0 then [] else Links(entity, visit, lookup, n - 1) + StepLink(entity, visit, lookup, n - 1)
  }

  /** Every addition joins the triggering entity or a looked-up entity to a looked-up entity. */
  lemma {:induction false} LinksWithin<K>(entity: Entity, visit: seq<K>, lookup: map<K, Entity>, n: nat)
    requires n <= |visit|
    ensures forall l :: l in Links(entity, visit, lookup, n) ==>
              (l.head == entity || l.head in lookup.Values) && l.next in lookup.Values
  {
    if n > 0 {
      LinksWithin(entity, visit, lookup, n - 1);
    }
  }

  /** An entity's children after a sequence of additions. */
  function ChildrenAfter(links: seq<Link>, o: Entity, init: Children): Children {
    if links == [] then init
    else
      var prev := ChildrenAfter(links[..|links| - 1], o, init);
      if links[|links| - 1].head == o then AddChild(prev, links[|links| - 1].next) else prev
  }

  /** An entity's parent after a sequence of additions: the head of the last addition of it. */
  function ParentAfter(links: seq<Link>, o: Entity, init: Entity?): Entity? {
    if links == [] then init
    else if links[|links| - 1].next == o then links[|links| - 1].head
    else ParentAfter(links[..|links| - 1], o, init)
  }

  /** The entities added under `o`, in order. */
  function AddedTo(links: seq<Link>, o: Entity): seq<Entity> {
    if links == [] then []
    else AddedTo(links[..|links| - 1], o) + if links[|links| - 1].head == o then [links[|links| - 1].next] else []
  }

  /**
   * The children field ends holding what it held plus every entity added
   * under it, in visit order; a value that is not a List never changes.
   */
  lemma {:induction false} ChildrenAppended(links: seq<Link>, o: Entity, init: Children)
    ensures init.NotAList? ==> ChildrenAfter(links, o, init) == init
    ensures !init.NotAList? ==> !ChildrenAfter(links, o, init).NotAList?
                                && Items(ChildrenAfter(links, o, init)) == Items(init) + AddedTo(links, o)
  {
    if links != [] {
      ChildrenAppended(links[..|links| - 1], o, init);
    }
  }

  /** Additions applied in two batches have the effect of the concatenated batch. */
  lemma {:induction false} AfterAppend(a: seq<Link>, b: seq<Link>, o: Entity, children: Children, parent: Entity?)
    ensures ChildrenAfter(a + b, o, children) == ChildrenAfter(b, o, ChildrenAfter(a, o, children))
    ensures ParentAfter(a + b, o, parent) == ParentAfter(b, o, ParentAfter(a, o, parent))
    decreases |b|
  {
    if b != [] {
      assert (a + b)[..|a + b| - 1] == a + b[..|b| - 1];
      AfterAppend(a, b[..|b| - 1], o, children, parent);
    } else {
      assert a + b == a;
    }
  }

  /** An entity no addition mentions keeps its fields. */
  lemma {:induction false} AfterUntouched(links: seq<Link>, o: Entity, children: Children, parent: Entity?)
    requires forall l :: l in links ==> l.head != o && l.next != o
    ensures ChildrenAfter(links, o, children) == children
    ensures ParentAfter(links, o, parent) == parent
  {
    if links != [] {
      AfterUntouched(links[..|links| - 1], o, children, parent);
    }
  }

  /**
   * There is no self-link guard: when the first visited id finds the
   * triggering entity itself, it is added to its own children and becomes
   * its own parent.
   */
  lemma RootRowFirstLinksToItself<K>(entity: Entity, visit: seq<K>, lookup: map<K, Entity>)
    requires |visit| > 0 && Get(lookup, visit[0]) == entity
    ensures Links(entity, visit, lookup, 1) == [Link(entity, entity)]
    ensures ParentAfter(Links(entity, visit, lookup, 1), entity, null) == entity
    ensures AddedTo(Links(entity, visit, lookup, 1), entity) == [entity]
  {
    var l := Link(entity, entity);
    assert StepLink(entity, visit, lookup, 0) == [l];
    assert Links(entity, visit, lookup, 1) == [] + [l];
    assert [l][..0] == [];
    assert ParentAfter([l], entity, null) == entity;
    assert AddedTo([l], entity) == AddedTo([], entity) + [entity];
  }

  /**
   * Consecutive found ids form a chain: the second is added under the
   * first, whether or not they are on the same level.
   */
  lemma SiblingsChain<K>(entity: Entity, visit: seq<K>, lookup: map<K, Entity>, i: nat)
    requires i + 1 < |visit| && visit[i] in lookup && visit[i + 1] in lookup
    ensures StepLink(entity, visit, lookup, i + 1) == [Link(lookup[visit[i]], lookup[visit[i + 1]])]
  {
  }

  /** A missing id leaves the next id with a null head, so the next entity is added nowhere. */
  lemma MissBreaksChain<K>(entity: Entity, visit: seq<K>, lookup: map<K, Entity>, i: nat)
    requires i + 1 < |visit| && visit[i] !in lookup
    ensures StepLink(entity, visit, lookup, i) == []
    ensures StepLink(entity, visit, lookup, i + 1) == []
  {
  }

  /** The entities the walk may write: the triggering entity and every looked-up one. */
  function Touched<K>(entity: Entity, lookup: map<K, Entity>): set<Entity> {
    {entity} + lookup.Values
  }

  /** A single addition extends its head's children and sets its next's parent. */
  lemma AfterOne(l: Link, o: Entity, children: Children, parent: Entity?)
    ensures ChildrenAfter([l], o, children) == if l.head == o then AddChild(children, l.next) else children
    ensures ParentAfter([l], o, parent) == if l.next == o then l.head else parent
  {
    assert [l][..0] == [];
  }

  /**
   * The body of the walk's inner loop at the i-th visited id: look the id
   * up and, when both it and the head are present, add it to the head's
   * children and make the head its parent. The looked-up entity is the
   * next head.
   */
  method Attach<K(==)>(entity: Entity, ghost visit: seq<K>, lookup: map<K, Entity>, ghost i: nat,
                id: K, nextHead: Entity?, ghost touched: set<Entity>)
    returns (nextCommit: Entity?)
    requires i < |visit| && visit[i] == id && nextHead == HeadAt(entity, visit, lookup, i)
    requires touched == Touched(entity, lookup)
    modifies touched
    ensures nextCommit == HeadAt(entity, visit, lookup, i + 1)
    ensures forall o {:trigger o in touched} :: o in touched ==>
              o.children == ChildrenAfter(StepLink(entity, visit, lookup, i), o, old(o.children))
              && o.parent == ParentAfter(StepLink(entity, visit, lookup, i), o, old(o.parent))
  {
    nextCommit := Get(lookup, id);
    var finalNextHead := nextHead;
    if nextCommit != null && finalNextHead != null {
      DoSetDeclaredField(finalNextHead, nextCommit);
      DoSetDeclaredFieldOne(nextCommit, finalNextHead);
      forall o | o in touched
        ensures o.children == ChildrenAfter([Link(finalNextHead, nextCommit)], o, old(o.children))
        ensures o.parent == ParentAfter([Link(finalNextHead, nextCommit)], o, old(o.parent))
      {
        AfterOne(Link(finalNextHead, nextCommit), o, old(o.children), old(o.parent));
      }
    }
  }

  /** Two batches of additions applied one after the other, stated on the three values of one entity's fields. */
  lemma Compose(before: seq<Link>, batch: seq<Link>, o: Entity, c0: Children, c1: Children, c2: Children,
                p0: Entity?, p1: Entity?, p2: Entity?)
    requires c1 == ChildrenAfter(before, o, c0) && c2 == ChildrenAfter(batch, o, c1)
    requires p1 == ParentAfter(before, o, p0) && p2 == ParentAfter(batch, o, p1)
    ensures c2 == ChildrenAfter(before + batch, o, c0) && p2 == ParentAfter(before + batch, o, p0)
  {
    AfterAppend(before, batch, o, c0, p0);
  }

  /** Every entity of `c0`'s keys holds, in its fields, `links` applied to its values in `c0` and `p0`. */
  ghost predicate Applied(links: seq<Link>, c0: map<Entity, Children>, p0: map<Entity, Entity?>)
    reads c0.Keys
  {
    forall o {:trigger o in c0} :: o in c0 ==>
      o in p0 && o.children == ChildrenAfter(links, o, c0[o]) && o.parent == ParentAfter(links, o, p0[o])
  }

  /** One turn of the walk: Attach, stated against the fields as they were before the walk began. */
  method Advance<K(==)>(entity: Entity, ghost visit: seq<K>, lookup: map<K, Entity>, ghost i: nat,
                        id: K, nextHead: Entity?, ghost touched: set<Entity>, ghost done: seq<Link>,
                        ghost c0: map<Entity, Children>, ghost p0: map<Entity, Entity?>)
    returns (nextCommit: Entity?)
    requires i < |visit| && visit[i] == id && nextHead == HeadAt(entity, visit, lookup, i)
    requires touched == Touched(entity, lookup)
    requires c0.Keys == touched && Applied(done, c0, p0)
    modifies touched
    ensures nextCommit == HeadAt(entity, visit, lookup, i + 1)
    ensures Applied(done + StepLink(entity, visit, lookup, i), c0, p0)
  {
    ghost var step := StepLink(entity, visit, lookup, i);
    nextCommit := Attach(entity, visit, lookup, i, id, nextHead, touched);
    forall o | o in c0
      ensures o in p0
      ensures o.children == ChildrenAfter(done + step, o, c0[o])
      ensures o.parent == ParentAfter(done + step, o, p0[o])
    {
      Compose(done, step, o, c0[o], old(o.children), o.children, p0[o], old(o.parent), o.parent);
    }
  }

  /** The `while` loop of the walk, stated against the snapshot `c0`/`p0` of the fields before it. */
  method Walk<K(==)>(entity: Entity, visit: seq<K>, lookup: map<K, Entity>, ghost touched: set<Entity>,
                     ghost c0: map<Entity, Children>, ghost p0: map<Entity, Entity?>)
    requires touched == Touched(entity, lookup) && c0.Keys == touched
    requires Applied([], c0, p0)
    modifies touched
    ensures Applied(Links(entity, visit, lookup, |visit|), c0, p0)
  {
    var nextHead: Entity? := entity;
    var i := 0;
    ghost var done: seq<Link> := [];
    while i < |visit|
      invariant 0 <= i <= |visit|
      invariant nextHead == HeadAt(entity, visit, lookup, i)
      invariant done == Links(entity, visit, lookup, i)
      invariant Applied(done, c0, p0)
    {
      nextHead := Advance(entity, visit, lookup, i, visit[i], nextHead, touched, done, c0, p0);
      done := done + StepLink(entity, visit, lookup, i);
      i := i + 1;
    }
  }

  /**
   * The walk of onPostLoad for one annotated field over `visit`, the ids
   * level by level in ascending order and each level in row order: the
   * head is carried from one id to the next and from one level to the next.
   */
  method LinkLevels<K(==)>(entity: Entity, visit: seq<K>, lookup: map<K, Entity>, ghost touched: set<Entity>)
    requires touched == Touched(entity, lookup)
    modifies touched
    ensures forall o {:trigger o in touched} :: o in touched ==>
              o.children == ChildrenAfter(Links(entity, visit, lookup, |visit|), o, old(o.children))
              && o.parent == ParentAfter(Links(entity, visit, lookup, |visit|), o, old(o.parent))
  {
    ghost var c0 := map o | o in touched :: o.children;
    ghost var p0 := map o | o in touched :: o.parent;
    assert c0.Keys == touched;
    Walk(entity, visit, lookup, touched, c0, p0);
    ghost var done := Links(entity, visit, lookup, |visit|);
    forall o | o in touched
      ensures o.children == ChildrenAfter(done, o, old(o.children)) && o.parent == ParentAfter(done, o, old(o.parent))
    {
      assert o in c0;
    }
  }

  // ---------------------------------------------------------------------
  // onPostLoad
  // ---------------------------------------------------------------------

  /** The entities of a sequence, as a set. */
  function Members(s: seq<Entity>): (r: set<Entity>)
    ensures forall o :: o in s ==> o in r
    ensures forall o :: o in r ==> o in s
  {
    if s == [] then {} else Members(s[..|s| - 1]) + {s[|s| - 1]}
  }

  /** Every entity loaded for any field. */
  function AllLoaded(results: seq<QueryResult>): (r: set<Entity>)
    ensures forall i, o :: 0 <= i < |results| && o in results[i].loaded ==> o in r
  {
    if results == [] then {}
    else
      var r := AllLoaded(results[..|results| - 1]) + Members(results[|results| - 1].loaded);
      assert forall i :: 0 <= i < |results| - 1 ==> results[..|results| - 1][i] == results[i];
      r
  }

  /**
   * One annotated field: the id field and its value are read, the levels
   * are parsed, the lookup is built, and the walk's additions result.
   */
  function FieldPlan(entity: Entity, q: QueryResult): (r: Result<seq<Link>, ListenerError>)
    ensures RetrieveIdField(entity.cls, SpringDataId).None? ==> r == Err(NoIdField)
    ensures RetrieveIdField(entity.cls, SpringDataId).Some? && !entity.idReadable ==> r == Err(IdNotAccessible)
    ensures r == Err(NumberFormat) <==> RetrieveIdField(entity.cls, SpringDataId).Some? && entity.idReadable
                                        && ParseLevels(q.rows).Err?
    ensures r.Ok? <==> RetrieveIdField(entity.cls, SpringDataId).Some? && entity.idReadable
                       && ParseLevels(q.rows).Ok? && LookupSpec(q.loaded).Ok?
    ensures RetrieveIdField(entity.cls, SpringDataId).Some? && entity.idReadable && ParseLevels(q.rows).Ok?
              && LookupSpec(q.loaded).Err?
            ==> r == Err(LookupSpec(q.loaded).error)
    ensures r.Ok? ==> var visit := Visit(GroupByLevel(ParseLevels(q.rows).value));
                      r.value == Links(entity, visit, LookupSpec(q.loaded).value, |visit|)
  {
    if RetrieveIdField(entity.cls, SpringDataId).None? then Err(NoIdField)
    else if !entity.idReadable then Err(IdNotAccessible)
    else match ParseLevels(q.rows)
      case Err(e) => Err(e)
      case Ok(entries) =>
        match LookupSpec(q.loaded)
        case Err(e) => Err(e)
        case Ok(m) =>
          var visit := Visit(GroupByLevel(entries));
          Ok(Links(entity, visit, m, |visit|))
  }

  /** The additions one annotated field contributes: none when it fails. */
  function FieldLinks(entity: Entity, q: QueryResult): seq<Link> {
    if FieldPlan(entity, q).Ok? then FieldPlan(entity, q).value else []
  }

  /**
   * The declared fields in order, `results[f]` being the query results for
   * field f (ignored when the field is not annotated OneToManyRecursive):
   * the additions made so far, and the error that stopped the listener.
   */
  function Plan(entity: Entity, results: seq<QueryResult>): (seq<Link>, Option<ListenerError>)
    requires |results| <= |entity.cls.fields|
  {
    if results == [] then ([], None)
    else
      var f := |results| - 1;
      var before := Plan(entity, results[..f]);
      if before.1.Some? || !HasAnnotation(entity.cls.fields[f], OneToManyRecursive) then before
      else match FieldPlan(entity, results[f])
        case Err(e) => (before.0, Some(e))
        case Ok(links) => (before.0 + links, None)
  }

  /** Once a field fails, later fields are not processed. */
  lemma {:induction false} PlanStopsAtError(entity: Entity, results: seq<QueryResult>, j: nat)
    requires j <= |results| <= |entity.cls.fields| && Plan(entity, results[..j]).1.Some?
    ensures Plan(entity, results) == Plan(entity, results[..j])
    decreases |results| - j
  {
    if j < |results| {
      assert results[..j + 1][..j] == results[..j];
      PlanStopsAtError(entity, results, j + 1);
    } else {
      assert results[..j] == results;
    }
  }

  /** Processing one more declared field. */
  lemma PlanStep(entity: Entity, results: seq<QueryResult>, f: nat)
    requires f < |results| <= |entity.cls.fields| && Plan(entity, results[..f]).1.None?
    ensures !HasAnnotation(entity.cls.fields[f], OneToManyRecursive) ==>
              Plan(entity, results[..f + 1]) == Plan(entity, results[..f])
    ensures HasAnnotation(entity.cls.fields[f], OneToManyRecursive) && FieldPlan(entity, results[f]).Ok? ==>
              Plan(entity, results[..f + 1]) == (Plan(entity, results[..f]).0 + FieldLinks(entity, results[f]), None)
    ensures HasAnnotation(entity.cls.fields[f], OneToManyRecursive) && FieldPlan(entity, results[f]).Err? ==>
              Plan(entity, results[..f + 1]) == (Plan(entity, results[..f]).0, Some(FieldPlan(entity, results[f]).error))
  {
    assert results[..f + 1][..f] == results[..f];
  }

  /** The entities loaded for one field are among all loaded entities. */
  lemma LoadedInAll(results: seq<QueryResult>, f: nat)
    requires f < |results|
    ensures forall o :: o in results[f].loaded ==> o in AllLoaded(results)
  {
  }

  /**
   * The body of onPostLoad's loop for the annotated field f, after `links`
   * were made for the fields before it. Its effect is stated for the
   * triggering entity and for every entity of `results`.
   */
  method HandleField(entity: Entity, results: seq<QueryResult>, f: nat, ghost links: seq<Link>)
    returns (err: Option<ListenerError>, ghost more: seq<Link>)
    requires f < |results| <= |entity.cls.fields| && HasAnnotation(entity.cls.fields[f], OneToManyRecursive)
    requires Plan(entity, results[..f]) == (links, None)
    modifies entity, results[f].loaded
    ensures err.None? <==> FieldPlan(entity, results[f]).Ok?
    ensures err.None? ==> Plan(entity, results[..f + 1]) == (links + more, None)
    ensures err.Some? ==> Plan(entity, results) == (links, err) && more == []
    ensures entity.children == ChildrenAfter(more, entity, old(entity.children))
    ensures entity.parent == ParentAfter(more, entity, old(entity.parent))
    ensures forall i, j :: 0 <= i < |results| && 0 <= j < |results[i].loaded| ==>
              results[i].loaded[j].children == ChildrenAfter(more, results[i].loaded[j], old(results[i].loaded[j].children))
              && results[i].loaded[j].parent == ParentAfter(more, results[i].loaded[j], old(results[i].loaded[j].parent))
  {
    more := FieldLinks(entity, results[f]);
    var q := results[f];
    PlanStep(entity, results, f);
    var idField := RetrieveIdField(entity.cls, SpringDataId);
    if idField.None? {
      PlanStopsAtError(entity, results, f + 1);
      return Some(NoIdField), more;
    }
    if !entity.idReadable {
      PlanStopsAtError(entity, results, f + 1);
      return Some(IdNotAccessible), more;
    }
    var entries := ParseLevels(q.rows);
    if entries.Err? {
      PlanStopsAtError(entity, results, f + 1);
      return Some(entries.error), more;
    }
    var lookup := BuildLookup(q.loaded);
    if lookup.Err? {
      PlanStopsAtError(entity, results, f + 1);
      return Some(lookup.error), more;
    }
    var groups := GroupByLevel(entries.value);
    var visit := Visit(groups);
    WalkField(entity, results, f, visit, lookup.value);
    ghost var made := Links(entity, visit, lookup.value, |visit|);
    assert FieldPlan(entity, q) == Ok(made);
    assert more == made;
    err := None;
  }

  /**
   * The walk for one field together with its frame: the entities it
   * touches change as its links say, every other loaded entity keeps its
   * fields.
   */
  method WalkField(entity: Entity, results: seq<QueryResult>, f: nat, visit: seq<string>, lookup: map<string, Entity>)
    requires f < |results|
    requires forall k :: k in lookup ==> lookup[k] in results[f].loaded
    modifies entity, results[f].loaded
    ensures entity.children == ChildrenAfter(Links(entity, visit, lookup, |visit|), entity, old(entity.children))
    ensures entity.parent == ParentAfter(Links(entity, visit, lookup, |visit|), entity, old(entity.parent))
    ensures forall i, j :: 0 <= i < |results| && 0 <= j < |results[i].loaded| ==>
              results[i].loaded[j].children
                == ChildrenAfter(Links(entity, visit, lookup, |visit|), results[i].loaded[j], old(results[i].loaded[j].children))
              && results[i].loaded[j].parent
                == ParentAfter(Links(entity, visit, lookup, |visit|), results[i].loaded[j], old(results[i].loaded[j].parent))
  {
    LinkLevels(entity, visit, lookup, Touched(entity, lookup));
    ghost var made := Links(entity, visit, lookup, |visit|);
    LinksWithin(entity, visit, lookup, |visit|);
    assert entity in Touched(entity, lookup);
    forall i, j | 0 <= i < |results| && 0 <= j < |results[i].loaded|
      ensures results[i].loaded[j].children == ChildrenAfter(made, results[i].loaded[j], old(results[i].loaded[j].children))
      ensures results[i].loaded[j].parent == ParentAfter(made, results[i].loaded[j], old(results[i].loaded[j].parent))
    {
      var o := results[i].loaded[j];
      if o !in Touched(entity, lookup) {
        AfterUntouched(made, o, old(o.children), old(o.parent));
      }
    }
  }

  /**
   * onPostLoad: for each declared field of the entity's class annotated
   * OneToManyRecursive, in declaration order, run the walk with that
   * field's query results. The fields end as the planned additions leave
   * them, and the listener fails exactly when the plan records an error.
   */
  method OnPostLoad(entity: Entity, results: seq<QueryResult>) returns (r: Result<(), ListenerError>)
    requires |results| == |entity.cls.fields|
    modifies entity, AllLoaded(results)
    ensures r.Err? <==> Plan(entity, results).1.Some?
    ensures r.Err? ==> r.error == Plan(entity, results).1.value
    ensures entity.children == ChildrenAfter(Plan(entity, results).0, entity, old(entity.children))
    ensures entity.parent == ParentAfter(Plan(entity, results).0, entity, old(entity.parent))
    ensures forall i, j :: 0 <= i < |results| && 0 <= j < |results[i].loaded| ==>
              results[i].loaded[j].children == ChildrenAfter(Plan(entity, results).0, results[i].loaded[j], old(results[i].loaded[j].children))
              && results[i].loaded[j].parent == ParentAfter(Plan(entity, results).0, results[i].loaded[j], old(results[i].loaded[j].parent))
  {
    var fields := entity.cls.fields;
    var f := 0;
    ghost var links: seq<Link> := [];
    while f < |fields|
      invariant 0 <= f <= |fields|
      invariant Plan(entity, results[..f]) == (links, None)
      invariant entity.children == ChildrenAfter(links, entity, old(entity.children))
      invariant entity.parent == ParentAfter(links, entity, old(entity.parent))
      invariant forall i, j :: 0 <= i < |results| && 0 <= j < |results[i].loaded| ==>
                  results[i].loaded[j].children == ChildrenAfter(links, results[i].loaded[j], old(results[i].loaded[j].children))
                  && results[i].loaded[j].parent == ParentAfter(links, results[i].loaded[j], old(results[i].loaded[j].parent))
    {
      if HasAnnotation(fields[f], OneToManyRecursive) {
        LoadedInAll(results, f);
        var err;
        ghost var more;
        err, more := HandleField(entity, results, f, links);
        if err.Some? {
          r := Err(err.value);
          return;
        }
        AfterAppend(links, more, entity, old(entity.children), old(entity.parent));
        forall i, j | 0 <= i < |results| && 0 <= j < |results[i].loaded|
          ensures results[i].loaded[j].children == ChildrenAfter(links + more, results[i].loaded[j], old(results[i].loaded[j].children))
          ensures results[i].loaded[j].parent == ParentAfter(links + more, results[i].loaded[j], old(results[i].loaded[j].parent))
        {
          var o := results[i].loaded[j];
          AfterAppend(links, more, o, old(o.children), old(o.parent));
        }
        links := links + more;
      } else {
        PlanStep(entity, results, f);
      }
      f := f + 1;
    }
    assert results[..f] == results;
    r := Ok(());
  }
}
