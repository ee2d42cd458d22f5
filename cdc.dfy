/**
 * The change-data-capture registry of CdcProcessor: at start-up every
 * CdcSubscriber is registered under each subscription name it declares,
 * and every Postgres notification is then dispatched to the subscribers
 * registered under the notification's name.
 *
 * The Postgres LISTEN connection, the scheduled thread pool that polls it
 * and the data-source key switch are outside the model: a notification is
 * an input of `Dispatch`, and the callbacks it makes are its output.
 */
module Cdc {

  /** A Java String; the registry only compares strings, so their characters stay abstract. */
  type Text(==, !new)

  /** A CdcSubscriber bean: its name and, in order, the names getSubscriptionName returns. */
  datatype Subscriber = Subscriber(bean: Text, names: seq<Text>)

  /** A PGNotification: the channel name and its payload. */
  datatype Notification = Notification(name: Text, parameter: Text)

  /** One `onDataChange(tableName, operation, data)` call on `subscriber`. */
  datatype Callback = Callback(subscriber: Subscriber, tableName: Text, operation: Text,
                               data: map<Text, Text>)

  // ---------------------------------------------------------------------
  // Registration
  // ---------------------------------------------------------------------

  /** The list stored under `name`, or the empty list when there is none. */
  function ListOf(m: map<Text, seq<Subscriber>>, name: Text): seq<Subscriber> {
    if name in m then m[name] else []
  }

  /** One `compute` of initialize: append `s` to the list of `name`, creating it on first use. */
  function Append(m: map<Text, seq<Subscriber>>, name: Text, s: Subscriber): map<Text, seq<Subscriber>>
  {
    m[name := ListOf(m, name) + [s]]
  }

  /** Registers `s` under each of `names`, in order. */
  function RegisterNames(m: map<Text, seq<Subscriber>>, s: Subscriber, names: seq<Text>): map<Text, seq<Subscriber>>
  {
    if names == [] then m
    else Append(RegisterNames(m, s, names[..|names| - 1]), names[|names| - 1], s)
  }

  /** Registers every subscriber of `subs`, in order, under each of its names. */
  function RegisterAll(m: map<Text, seq<Subscriber>>, subs: seq<Subscriber>): map<Text, seq<Subscriber>>
  {
    if subs == [] then m
    else
      var last := subs[|subs| - 1];
      RegisterNames(RegisterAll(m, subs[..|subs| - 1]), last, last.names)
  }

  lemma RegisterNamesSnoc(m: map<Text, seq<Subscriber>>, s: Subscriber, init: seq<Text>, last: Text)
    ensures RegisterNames(m, s, init + [last]) == Append(RegisterNames(m, s, init), last, s)
  {
    assert (init + [last])[..|init|] == init;
  }

  lemma RegisterAllSnoc(m: map<Text, seq<Subscriber>>, init: seq<Subscriber>, last: Subscriber)
    ensures RegisterAll(m, init + [last]) == RegisterNames(RegisterAll(m, init), last, last.names)
  {
    assert (init + [last])[..|init|] == init;
  }

  /** How often `name` occurs in `names`. */
  function Count(names: seq<Text>, name: Text): nat {
    if names == [] then 0
    else Count(names[..|names| - 1], name) + (if names[|names| - 1] == name then 1 else 0)
  }

  lemma {:induction false} CountPositive(names: seq<Text>, name: Text)
    ensures Count(names, name) > 0 <==> name in names
  {
    if names != [] {
      var init := names[..|names| - 1];
      CountPositive(init, name);
      assert names == init + [names[|names| - 1]];
    }
  }

  /** `k` copies of `s`. */
  function Repeat(s: Subscriber, k: nat): (r: seq<Subscriber>)
    ensures |r| == k
    ensures forall i :: 0 <= i < k ==> r[i] == s
  {
    if k == 0 then [] else Repeat(s, k - 1) + [s]
  }

  /**
   * Reference definition, independent of any map: the subscribers a name
   * ends up with are, in registration order, each subscriber once for
   * every time it lists that name.
   */
  function SubscribersOf(subs: seq<Subscriber>, name: Text): seq<Subscriber> {
    if subs == [] then []
    else SubscribersOf(subs[..|subs| - 1], name) + Repeat(subs[|subs| - 1], Count(subs[|subs| - 1].names, name))
  }

  /** Some subscriber of `subs` lists `name`. */
  predicate Declares(subs: seq<Subscriber>, name: Text) {
    subs != [] && (Declares(subs[..|subs| - 1], name) || name in subs[|subs| - 1].names)
  }

  /** `Declares` read as "some subscriber lists the name". */
  lemma {:induction false} DeclaresSome(subs: seq<Subscriber>, name: Text)
    ensures Declares(subs, name) <==> exists i :: 0 <= i < |subs| && name in subs[i].names
  {
    if subs != [] {
      var init := subs[..|subs| - 1];
      DeclaresSome(init, name);
      if Declares(init, name) {
        var i :| 0 <= i < |init| && name in init[i].names;
        assert subs[i] == init[i];
      }
      if exists i :: 0 <= i < |subs| && name in subs[i].names {
        var i :| 0 <= i < |subs| && name in subs[i].names;
        if i < |init| {
          assert init[i] == subs[i];
        }
      }
    }
  }

  /** Registering one subscriber's names, seen from one name: it is added `Count` times. */
  lemma {:induction false} RegisterNamesAt(m: map<Text, seq<Subscriber>>, s: Subscriber, names: seq<Text>, n: Text)
    ensures n in RegisterNames(m, s, names) <==> n in m || n in names
    ensures ListOf(RegisterNames(m, s, names), n) == ListOf(m, n) + Repeat(s, Count(names, n))
  {
    if names != [] {
      var init := names[..|names| - 1];
      var last := names[|names| - 1];
      RegisterNamesAt(m, s, init, n);
      var r0 := RegisterNames(m, s, init);
      assert RegisterNames(m, s, names) == r0[last := ListOf(r0, last) + [s]];
      if n == last {
        assert Count(names, n) == Count(init, n) + 1;
        assert Repeat(s, Count(names, n)) == Repeat(s, Count(init, n)) + [s];
      } else {
        assert Count(names, n) == Count(init, n);
      }
    }
  }

  /** Registering a list of subscribers, seen from one name, described by the reference definition. */
  lemma {:induction false} RegisterAllAt(m: map<Text, seq<Subscriber>>, subs: seq<Subscriber>, n: Text)
    ensures n in RegisterAll(m, subs) <==> n in m || Declares(subs, n)
    ensures ListOf(RegisterAll(m, subs), n) == ListOf(m, n) + SubscribersOf(subs, n)
  {
    if subs != [] {
      var init := subs[..|subs| - 1];
      var last := subs[|subs| - 1];
      var before := RegisterAll(m, init);
      var rep := Repeat(last, Count(last.names, n));
      RegisterAllAt(m, init, n);
      assert RegisterAll(m, subs) == RegisterNames(before, last, last.names) by {
        assert subs == init + [last];
        RegisterAllSnoc(m, init, last);
      }
      RegisterNamesAt(before, last, last.names, n);
      assert SubscribersOf(subs, n) == SubscribersOf(init, n) + rep;
      assert (ListOf(m, n) + SubscribersOf(init, n)) + rep == ListOf(m, n) + (SubscribersOf(init, n) + rep);
    }
  }

  /** The subscription map that initialize builds from an empty map. */
  function Registrations(subs: seq<Subscriber>): map<Text, seq<Subscriber>> {
    RegisterAll(map[], subs)
  }

  /** A name is active exactly when some subscriber declares it. */
  lemma ActiveNames(subs: seq<Subscriber>, name: Text)
    ensures name in Registrations(subs) <==> Declares(subs, name)
  {
    RegisterAllAt(map[], subs, name);
  }

  /** The active names, for all names at once. */
  lemma ActiveNamesAll(subs: seq<Subscriber>)
    ensures forall name :: name in Registrations(subs) <==> Declares(subs, name)
  {
    forall name
      ensures name in Registrations(subs) <==> Declares(subs, name)
    {
      ActiveNames(subs, name);
    }
  }

  /** Each name's list holds its subscribers in registration order, once per occurrence of the name. */
  lemma RegisteredLists(subs: seq<Subscriber>, name: Text)
    requires name in Registrations(subs)
    ensures Registrations(subs)[name] == SubscribersOf(subs, name)
  {
    RegisterAllAt(map[], subs, name);
  }

  /** A subscriber is in a name's list exactly when it declares the name. */
  lemma {:induction false} SubscribersOfMembers(subs: seq<Subscriber>, name: Text, s: Subscriber)
    ensures s in SubscribersOf(subs, name) <==> exists i :: 0 <= i < |subs| && subs[i] == s && name in s.names
  {
    if subs != [] {
      var init := subs[..|subs| - 1];
      var last := subs[|subs| - 1];
      SubscribersOfMembers(init, name, s);
      CountPositive(last.names, name);
      var tail := Repeat(last, Count(last.names, name));
      assert SubscribersOf(subs, name) == SubscribersOf(init, name) + tail;
      if s in tail {
        assert tail[0] == last;
      }
      if exists i :: 0 <= i < |subs| && subs[i] == s && name in s.names {
        var i :| 0 <= i < |subs| && subs[i] == s && name in s.names;
        if i < |init| {
          assert init[i] == s;
        } else {
          assert tail[0] == s;
        }
      }
      if exists i :: 0 <= i < |init| && init[i] == s && name in s.names {
        var i :| 0 <= i < |init| && init[i] == s && name in s.names;
        assert subs[i] == s;
      }
    }
  }

  /** Every stored list is non-empty: a mapping exists only once something was appended to it. */
  lemma RegisteredListsNonEmpty(subs: seq<Subscriber>, name: Text)
    requires name in Registrations(subs)
    ensures Registrations(subs)[name] != []
  {
    RegisterAllAt(map[], subs, name);
    DeclaresSome(subs, name);
    var i :| 0 <= i < |subs| && name in subs[i].names;
    SubscribersOfMembers(subs, name, subs[i]);
  }

  // ---------------------------------------------------------------------
  // Dispatch
  // ---------------------------------------------------------------------

  /** The `data` argument of every callback for `n`: the single entry name ↦ parameter. */
  function Data(n: Notification): map<Text, Text> {
    map[n.name := n.parameter]
  }

  /** The callbacks made on `s` for `n`: one per name in `names`, with that name as table and operation. */
  function CallsOf(s: Subscriber, names: seq<Text>, n: Notification): (r: seq<Callback>)
    ensures |r| == |names|
  {
    if names == [] then []
    else CallsOf(s, names[..|names| - 1], n) + [Callback(s, names[|names| - 1], names[|names| - 1], Data(n))]
  }

  /** The callbacks made for `n` on every subscriber of `list`, in list order. */
  function CallsFor(list: seq<Subscriber>, n: Notification): seq<Callback> {
    if list == [] then []
    else CallsFor(list[..|list| - 1], n) + CallsOf(list[|list| - 1], list[|list| - 1].names, n)
  }

  /** What one notification triggers: nothing for an unregistered name. */
  function DispatchSpec(m: map<Text, seq<Subscriber>>, n: Notification): seq<Callback> {
    if n.name in m then CallsFor(m[n.name], n) else []
  }

  lemma {:induction false} CallsOfSound(s: Subscriber, names: seq<Text>, n: Notification, c: Callback)
    requires c in CallsOf(s, names, n)
    ensures c == Callback(s, c.tableName, c.tableName, Data(n)) && c.tableName in names
  {
    var init := names[..|names| - 1];
    if c in CallsOf(s, init, n) {
      CallsOfSound(s, init, n, c);
      assert init <= names;
    }
  }

  lemma {:induction false} CallsOfComplete(s: Subscriber, names: seq<Text>, n: Notification, k: nat)
    requires k < |names|
    ensures CallsOf(s, names, n)[k] == Callback(s, names[k], names[k], Data(n))
  {
    var init := names[..|names| - 1];
    if k < |init| {
      CallsOfComplete(s, init, n, k);
    }
  }

  /** Every callback goes to a subscriber of the list, names one of its names as both table and operation, and carries the notification. */
  lemma {:induction false} DispatchSound(list: seq<Subscriber>, n: Notification, c: Callback)
    requires c in CallsFor(list, n)
    ensures c.subscriber in list && c.tableName in c.subscriber.names
    ensures c.operation == c.tableName && c.data == Data(n)
  {
    var init := list[..|list| - 1];
    var last := list[|list| - 1];
    if c in CallsFor(init, n) {
      DispatchSound(init, n, c);
      assert init <= list;
    } else {
      CallsOfSound(last, last.names, n, c);
    }
  }

  /** The callbacks number one per (subscriber, name) pair of the list. */
  function NameTotal(list: seq<Subscriber>): nat {
    if list == [] then 0 else NameTotal(list[..|list| - 1]) + |list[|list| - 1].names|
  }

  /**
   * Every subscriber of the list is called once per each of its own names:
   * the call for the `k`-th name of the `i`-th subscriber sits at index
   * NameTotal(list[..i]) + k.
   */
  lemma {:induction false} DispatchComplete(list: seq<Subscriber>, n: Notification, i: nat, k: nat)
    requires i < |list| && k < |list[i].names|
    ensures |CallsFor(list, n)| == NameTotal(list)
    ensures NameTotal(list[..i]) + k < |CallsFor(list, n)|
    ensures CallsFor(list, n)[NameTotal(list[..i]) + k] == Callback(list[i], list[i].names[k], list[i].names[k], Data(n))
  {
    var init := list[..|list| - 1];
    var last := list[|list| - 1];
    CallsForLength(init, n);
    if i < |init| {
      DispatchComplete(init, n, i, k);
      assert init[..i] == list[..i];
      assert init[i] == list[i];
    } else {
      assert list[..i] == init;
      CallsOfComplete(last, last.names, n, k);
    }
  }

  lemma {:induction false} CallsForLength(list: seq<Subscriber>, n: Notification)
    ensures |CallsFor(list, n)| == NameTotal(list)
  {
    if list != [] {
      CallsForLength(list[..|list| - 1], n);
    }
  }

  /** A notification whose name nobody registered calls nobody. */
  lemma UnregisteredCallsNobody(subs: seq<Subscriber>, n: Notification)
    requires !Declares(subs, n.name)
    ensures DispatchSpec(Registrations(subs), n) == []
  {
    ActiveNames(subs, n.name);
  }

  /** The inner `forEach` of dispatch: `s.onDataChange(name, name, data)` for each of its names. */
  method CallSubscriber(s: Subscriber, n: Notification) returns (calls: seq<Callback>)
    ensures calls == CallsOf(s, s.names, n)
  {
    calls := [];
    var j := 0;
    while j < |s.names|
      invariant 0 <= j <= |s.names|
      invariant calls == CallsOf(s, s.names[..j], n)
    {
      var name := s.names[j];
      assert s.names[..j + 1][..j] == s.names[..j];
      calls := calls + [Callback(s, name, name, Data(n))];
      j := j + 1;
    }
    assert s.names[..j] == s.names;
  }

  // ---------------------------------------------------------------------
  // The processor
  // ---------------------------------------------------------------------

  class CdcProcessor {
    /** The autowired subscribers, in injection order. */
    const subscribers: seq<Subscriber>
    var subscriptionMap: map<Text, seq<Subscriber>>
    /** Whether initialize has started the scheduled notification polling. */
    var polling: bool

    constructor (subscribers: seq<Subscriber>)
      ensures this.subscribers == subscribers
      ensures subscriptionMap == map[] && !polling
    {
      this.subscribers := subscribers;
      subscriptionMap := map[];
      polling := false;
    }

    /** The subscription map is the one registration builds from the subscribers. */
    ghost predicate Registered()
      reads this
    {
      subscriptionMap == Registrations(subscribers)
    }

    /**
     * The @PostConstruct registration; with no subscribers it returns before
     * registering or polling. Run on the freshly constructed (empty) map, it
     * leaves the processor Registered.
     */
    method Initialize()
      modifies this
      ensures subscriptionMap == RegisterAll(old(subscriptionMap), subscribers)
      ensures old(subscriptionMap) == map[] ==> Registered()
      ensures polling == (old(polling) || subscribers != [])
    {
      if subscribers == [] {
        return;
      }
      var i := 0;
      while i < |subscribers|
        invariant 0 <= i <= |subscribers|
        invariant subscriptionMap == RegisterAll(old(subscriptionMap), subscribers[..i])
      {
        var s := subscribers[i];
        assert subscribers[..i + 1] == subscribers[..i] + [s];
        RegisterAllSnoc(old(subscriptionMap), subscribers[..i], s);
        RegisterSubscriber(s);
        i := i + 1;
      }
      assert subscribers[..i] == subscribers;
      polling := true;
    }

    /** The `forEach` over one subscriber's names: one `compute` per name. */
    method RegisterSubscriber(s: Subscriber)
      modifies this`subscriptionMap
      ensures subscriptionMap == RegisterNames(old(subscriptionMap), s, s.names)
    {
      var j := 0;
      while j < |s.names|
        invariant 0 <= j <= |s.names|
        invariant subscriptionMap == RegisterNames(old(subscriptionMap), s, s.names[..j])
      {
        var name := s.names[j];
        assert s.names[..j + 1] == s.names[..j] + [name];
        RegisterNamesSnoc(old(subscriptionMap), s, s.names[..j], name);
        ghost var pre := subscriptionMap;
        if name in subscriptionMap {
          subscriptionMap := subscriptionMap[name := subscriptionMap[name] + [s]];
        } else {
          assert ListOf(subscriptionMap, name) + [s] == [s];
          subscriptionMap := subscriptionMap[name := [s]];
        }
        assert subscriptionMap == Append(pre, name, s);
        j := j + 1;
      }
      assert s.names[..j] == s.names;
    }

    /**
     * The names with a registered list: once registered, exactly the names
     * some subscriber declares (none when there are no subscribers).
     */
    function SubscriptionsActive(): (r: set<Text>)
      reads this
      ensures Registered() ==> forall name :: name in r <==> Declares(subscribers, name)
      ensures Registered() && subscribers == [] ==> r == {}
    {
      ActiveNamesAll(subscribers);
      subscriptionMap.Keys
    }

    /** The callbacks one notification makes, in order; the map is left as it was. */
    method Dispatch(n: Notification) returns (calls: seq<Callback>)
      ensures calls == DispatchSpec(subscriptionMap, n)
    {
      calls := [];
      if n.name !in subscriptionMap {
        return;
      }
      var prev := subscriptionMap[n.name];
      var i := 0;
      while i < |prev|
        invariant 0 <= i <= |prev|
        invariant calls == CallsFor(prev[..i], n)
      {
        var s := prev[i];
        assert prev[..i + 1] == prev[..i] + [s];
        var more := CallSubscriber(s, n);
        calls := calls + more;
        i := i + 1;
      }
      assert prev[..i] == prev;
    }
  }
}
