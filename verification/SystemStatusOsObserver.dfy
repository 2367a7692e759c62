/** The two-way subscription index of gps/core/SystemStatusOsObserver.cpp.

    Clients subscribe to data items; one map leads from clients to items, another from items
    to clients, and the framework is told which items anybody wants.  The main results: over
    every run of the index operations the maps stay exact inverses without empty entries, the
    framework's list is exactly the items with a client, and a notification reaches every
    client with exactly the updated items it subscribes to. */
module SystemStatusOsObserver {
  import opened Wrappers
  import opened LocUnorderedSetMap

  /** A `DataItemId`. */
  datatype Item = Item(id: int)

  /** The address of an `IDataItemObserver`. */
  datatype Client = Client(address: nat)

  type Value = int

  type ItemsOf = map<Client, set<Item>>
  type ClientsOf = map<Item, set<Client>>

  ghost predicate NoEmptyEntry<K, V>(m: map<K, set<V>>) {
    forall k :: k in m ==> m[k] != {}
  }

  /** The maps hold the same relation, and neither has an entry without values. */
  ghost predicate Inverse(a: ItemsOf, b: ClientsOf) {
    && NoEmptyEntry(a) && NoEmptyEntry(b)
    && forall c, i :: i in Get(a, c) <==> c in Get(b, i)
  }

  // ---------- The index operations as functions of the maps ----------

  /** Subscribing adds the pairs of the client and the items, to both maps. */
  lemma SubscribeKeepsInverse(a: ItemsOf, b: ClientsOf, c: Client, items: set<Item>)
    requires Inverse(a, b) && items != {}
    ensures Inverse(a[c := Get(a, c) + items], Extended(b, items, {c}))
    ensures Extended(b, items, {c}).Keys == b.Keys + items
  {
    var x, y := a[c := Get(a, c) + items], Extended(b, items, {c});
    forall d, i ensures i in Get(x, d) <==> d in Get(y, i) {
      assert i in Get(x, d) <==> i in Get(a, d) || (d == c && i in items);
      assert d in Get(y, i) <==> d in Get(b, i) || (d == c && i in items);
    }
  }

  lemma TrimLeavesNoEmptyEntry<K, V>(m: map<K, set<V>>, keys: set<K>, rVals: set<V>)
    requires NoEmptyEntry(m)
    ensures NoEmptyEntry(Trimmed(m, keys, rVals))
  {
    forall k | k in Trimmed(m, keys, rVals) ensures Trimmed(m, keys, rVals)[k] != {} {
      if k in keys {
        var v :| v in m[k] && v !in rVals;
        assert v in Trimmed(m, keys, rVals)[k];
      }
    }
  }

  /** Unsubscribing takes them out of both maps, where they are. */
  lemma UnsubscribeKeepsInverse(a: ItemsOf, b: ClientsOf, c: Client, items: set<Item>, used: set<Item>)
    requires Inverse(a, b) && used == Get(a, c) * items
    ensures Inverse(Trimmed(a, {c}, items), Trimmed(b, used, {c}))
  {
    var x, y := Trimmed(a, {c}, items), Trimmed(b, used, {c});
    TrimLeavesNoEmptyEntry(a, {c}, items);
    TrimLeavesNoEmptyEntry(b, used, {c});
    forall d, i ensures i in Get(x, d) <==> d in Get(y, i) {
      assert i in Get(x, d) <==> i in Get(a, d) && !(d == c && i in items);
      assert d in Get(y, i) <==> d in Get(b, i) && !(d == c && i in used);
    }
  }

  lemma UnsubscribeAllKeepsInverse(a: ItemsOf, b: ClientsOf, c: Client)
    requires Inverse(a, b)
    ensures Inverse(a - {c}, Trimmed(b, Get(a, c), {c}))
  {
    var x, y := a - {c}, Trimmed(b, Get(a, c), {c});
    TrimLeavesNoEmptyEntry(b, Get(a, c), {c});
    forall d, i ensures i in Get(x, d) <==> d in Get(y, i) {
      assert i in Get(x, d) <==> i in Get(a, d) && d != c;
      assert d in Get(y, i) <==> d in Get(b, i) && !(d == c && i in Get(a, c));
    }
  }

  /** Updating a subscription leaves the maps inverse exactly when the client had none: the
      map of clients loses the items that the old and the new subscription share. */
  lemma UpdateKeepsInverseIff(a: ItemsOf, b: ClientsOf, c: Client, items: set<Item>)
    requires Inverse(a, b) && items != {}
    ensures Inverse(a[c := items], Extended(Trimmed(b, Get(a, c) * items, {c}), items - Get(a, c), {c}))
       <==> c !in a
  {
    var x, y := a[c := items], Extended(Trimmed(b, Get(a, c) * items, {c}), items - Get(a, c), {c});
    forall d, i ensures d in Get(y, i) <==> (d in Get(b, i) && !(d == c && i in items)) || (d == c && i in items && i !in Get(a, c)) {}
    if c in a {
      var i :| i in a[c];
      assert i in Get(x, c) <==> i in items;
      assert c in Get(y, i) <==> i !in items;
    } else {
      TrimLeavesNoEmptyEntry(b, Get(a, c) * items, {c});
      forall d, i ensures i in Get(x, d) <==> d in Get(y, i) {
        assert c in Get(b, i) <==> i in Get(a, c);
        assert i in Get(x, d) <==> if d == c then i in items else i in Get(a, d);
      }
    }
  }

  // ---------- Whole runs of the index ----------

  datatype IndexOp =
    | SubscribeTo(client: Client, items: set<Item>) | UnsubscribeFrom(client: Client, items: set<Item>)
    | UnsubscribeAll(client: Client)

  datatype Index = Index(itemsOf: ItemsOf, clientsOf: ClientsOf)

  /** The operations on the maps; a subscription to nothing is not sent as a message. */
  function IndexStep(ix: Index, op: IndexOp): Index {
    var a, b := ix.itemsOf, ix.clientsOf;
    match op
    case SubscribeTo(c, items) =>
      if items == {} then ix else Index(a[c := Get(a, c) + items], Extended(b, items, {c}))
    case UnsubscribeFrom(c, items) => Index(Trimmed(a, {c}, items), Trimmed(b, Get(a, c) * items, {c}))
    case UnsubscribeAll(c) => Index(a - {c}, Trimmed(b, Get(a, c), {c}))
  }

  function IndexRun(ops: seq<IndexOp>): Index {
    if ops == [] then Index(map[], map[]) else IndexStep(IndexRun(ops[..|ops| - 1]), ops[|ops| - 1])
  }

  /** Whether somebody who did or did not want an item wants it after an operation. */
  predicate WantsAfter(op: IndexOp, c: Client, i: Item, before: bool) {
    match op
    case SubscribeTo(d, items) => (d == c && i in items) || before
    case UnsubscribeFrom(d, items) => !(d == c && i in items) && before
    case UnsubscribeAll(d) => d != c && before
  }

  /** What the history says: the last operation about the client and the item was to subscribe. */
  predicate Wants(ops: seq<IndexOp>, c: Client, i: Item) {
    ops != [] && WantsAfter(ops[|ops| - 1], c, i, Wants(ops[..|ops| - 1], c, i))
  }

  lemma StepKeepsInverse(ix: Index, op: IndexOp)
    requires Inverse(ix.itemsOf, ix.clientsOf)
    ensures Inverse(IndexStep(ix, op).itemsOf, IndexStep(ix, op).clientsOf)
  {
    match op
    case SubscribeTo(c, items) =>
      if items != {} { SubscribeKeepsInverse(ix.itemsOf, ix.clientsOf, c, items); }
    case UnsubscribeFrom(c, items) =>
      UnsubscribeKeepsInverse(ix.itemsOf, ix.clientsOf, c, items, Get(ix.itemsOf, c) * items);
    case UnsubscribeAll(c) => UnsubscribeAllKeepsInverse(ix.itemsOf, ix.clientsOf, c);
  }

  lemma StepFollowsHistory(ix: Index, op: IndexOp, c: Client, i: Item)
    ensures i in Get(IndexStep(ix, op).itemsOf, c) <==> WantsAfter(op, c, i, i in Get(ix.itemsOf, c))
  {
  }

  /** Main theorem: after every run both maps hold exactly what the history says, and the
      items with an entry, which the framework is told about, are those somebody wants. */
  lemma {:induction false} IndexFollowsHistory(ops: seq<IndexOp>)
    ensures var ix := IndexRun(ops);
      && Inverse(ix.itemsOf, ix.clientsOf)
      && (forall c, i :: i in Get(ix.itemsOf, c) <==> Wants(ops, c, i))
      && (forall i :: i in ix.clientsOf <==> exists c :: i in Get(ix.itemsOf, c))
  {
    var ix := IndexRun(ops);
    if ops != [] {
      var before, op := ops[..|ops| - 1], ops[|ops| - 1];
      IndexFollowsHistory(before);
      StepKeepsInverse(IndexRun(before), op);
      forall c, i ensures i in Get(ix.itemsOf, c) <==> Wants(ops, c, i) {
        StepFollowsHistory(IndexRun(before), op, c, i);
      }
    }
    forall i ensures i in ix.clientsOf <==> exists c :: i in Get(ix.itemsOf, c) {
      KeyHasClient(ix.itemsOf, ix.clientsOf, i);
    }
  }

  lemma KeyHasClient(a: ItemsOf, b: ClientsOf, i: Item)
    requires Inverse(a, b)
    ensures i in b <==> exists c :: i in Get(a, c)
  {
    if i in b {
      var c :| c in b[i];
      assert c in Get(b, i);
      assert i in Get(a, c);
    }
    if exists c :: i in Get(a, c) {
      var c :| i in Get(a, c);
      assert c in Get(b, i);
    }
  }

  // ---------- The framework and the messages to clients ----------

  datatype FrameworkCall = CallSubscribe(items: set<Item>) | CallRequestData(items: set<Item>) | CallUnsubscribe(items: set<Item>)

  class IDataItemSubscription {
    var announced: set<Item>
    var calls: seq<FrameworkCall>

    constructor ()
      ensures announced == {} && calls == []
    {
      announced, calls := {}, [];
    }

    method Subscribe(l: set<Item>)
      modifies this
      ensures announced == old(announced) + l && calls == old(calls) + [CallSubscribe(l)]
    {
      announced, calls := announced + l, calls + [CallSubscribe(l)];
    }

    method RequestData(l: set<Item>)
      modifies this
      ensures announced == old(announced) + l && calls == old(calls) + [CallRequestData(l)]
    {
      announced, calls := announced + l, calls + [CallRequestData(l)];
    }

    method Unsubscribe(l: set<Item>)
      modifies this
      ensures announced == old(announced) - l && calls == old(calls) + [CallUnsubscribe(l)]
    {
      announced, calls := announced - l, calls + [CallUnsubscribe(l)];
    }
  }

  /** One call of a client's `notify`. */
  datatype Notice = Notice(to: Client, items: map<Item, Value>)

  /** What the cache holds of the items. */
  function Restrict(cache: map<Item, Value>, s: set<Item>): (r: map<Item, Value>)
    ensures r.Keys == s * cache.Keys
    ensures forall i :: i in r ==> r[i] == cache[i]
  {
    map i | i in s && i in cache :: cache[i]
  }

  /** A data item of a notification, with the answers of the parts it passes through: whether
      the system status takes it, whether the factory makes a new one, and whether copying
      onto a cached one changes it. */
  datatype DataItem = DataItem(id: Item, value: Value, accepted: bool, created: bool, copied: bool)

  /** Whether the item changes the cache, and so is to be sent on. */
  predicate Updates(cache: map<Item, Value>, d: Option<DataItem>) {
    d.Some? && d.value.accepted && if d.value.id in cache then d.value.copied else d.value.created
  }

  function Cached(cache: map<Item, Value>, v: seq<Option<DataItem>>): map<Item, Value> {
    if v == [] then cache
    else
      var before, d := Cached(cache, v[..|v| - 1]), v[|v| - 1];
      if Updates(before, d) then before[d.value.id := d.value.value] else before
  }

  /** The items a list of arrivals updates. */
  function Updated(cache: map<Item, Value>, v: seq<Option<DataItem>>): set<Item> {
    if v == [] then {}
    else
      var d := v[|v| - 1];
      Updated(cache, v[..|v| - 1]) + if Updates(Cached(cache, v[..|v| - 1]), d) then {d.value.id} else {}
  }

  /** Updated items are cached, the others as they were. */
  lemma {:induction false} OnlyUpdatedItemsChange(cache: map<Item, Value>, v: seq<Option<DataItem>>)
    ensures Cached(cache, v).Keys == cache.Keys + Updated(cache, v)
    ensures forall i :: i in cache && i !in Updated(cache, v) ==> Cached(cache, v)[i] == cache[i]
  {
    if v != [] {
      OnlyUpdatedItemsChange(cache, v[..|v| - 1]);
    }
  }

  /** The null entries the source puts in front of a notification's items do nothing. */
  lemma {:induction false} NullItemsChangeNothing(cache: map<Item, Value>, n: nat, v: seq<Option<DataItem>>)
    ensures Cached(cache, seq(n, i => None) + v) == Cached(cache, v)
    ensures Updated(cache, seq(n, i => None) + v) == Updated(cache, v)
    decreases n + |v|
  {
    var w := seq(n, i => None) + v;
    if v != [] {
      assert w[..|w| - 1] == seq(n, i => None) + v[..|v| - 1];
      NullItemsChangeNothing(cache, n, v[..|v| - 1]);
    } else if n > 0 {
      assert w[..|w| - 1] == seq(n - 1, i => None) + v;
      NullItemsChangeNothing(cache, n - 1, v);
    } else {
      assert w == [];
    }
  }

  // ---------- Which arrivals have an effect, read off the vector ----------

  predicate Accepted(d: Option<DataItem>, i: Item) {
    d.Some? && d.value.accepted && d.value.id == i
  }

  /** The item is cached when entry `k` comes: it was from the start, or an entry before made it. */
  predicate CachedBy(cache: map<Item, Value>, v: seq<Option<DataItem>>, k: nat, i: Item) {
    i in cache || exists j :: 0 <= j < k && j < |v| && Accepted(v[j], i) && v[j].value.created
  }

  /** Entry `k` is for item `i` and changes the cache: a first arrival when the factory makes
      it, a later one when the copy changes what is cached. */
  predicate Effect(cache: map<Item, Value>, v: seq<Option<DataItem>>, k: nat, i: Item) {
    k < |v| && Accepted(v[k], i) && if CachedBy(cache, v, k, i) then v[k].value.copied else v[k].value.created
  }

  /** Entry `k` is the last to change item `i`. */
  ghost predicate LastEffect(cache: map<Item, Value>, v: seq<Option<DataItem>>, k: nat, i: Item) {
    Effect(cache, v, k, i) && forall j :: k < j < |v| ==> !Effect(cache, v, j, i)
  }

  /** `ids` are the items some entry changes; each has the value of the last such entry, and
      the others are as they were. */
  ghost predicate Arrived(before: map<Item, Value>, v: seq<Option<DataItem>>, after: map<Item, Value>, ids: set<Item>) {
    && (forall i :: i in ids <==> exists k :: 0 <= k < |v| && Effect(before, v, k, i))
    && after.Keys == before.Keys + ids
    && (forall i, k :: 0 <= k < |v| && LastEffect(before, v, k, i) ==> i in after && after[i] == v[k].value.value)
    && (forall i :: i in before && i !in ids ==> after[i] == before[i])
  }

  /** Nothing that comes later changes which entries have an effect. */
  lemma EffectOfPrefix(cache: map<Item, Value>, v: seq<Option<DataItem>>, n: nat, k: nat, i: Item)
    requires k < n <= |v|
    ensures Effect(cache, v[..n], k, i) <==> Effect(cache, v, k, i)
  {
    forall j | 0 <= j < k ensures v[..n][j] == v[j] {}
  }

  lemma {:induction false} CachedByIff(cache: map<Item, Value>, v: seq<Option<DataItem>>, i: Item)
    ensures i in Cached(cache, v) <==> CachedBy(cache, v, |v|, i)
  {
    if v != [] {
      var n := |v| - 1;
      CachedByIff(cache, v[..n], i);
      forall j | 0 <= j < n ensures v[..n][j] == v[j] {}
      if Accepted(v[n], i) && v[n].value.created {
        assert CachedBy(cache, v, |v|, i);
      }
    }
  }

  /** The entry that comes last has an effect exactly when it updates the cache as it is then. */
  lemma LastEntryUpdatesIff(cache: map<Item, Value>, v: seq<Option<DataItem>>, i: Item)
    requires v != []
    ensures Effect(cache, v, |v| - 1, i) <==> v[|v| - 1].Some? && v[|v| - 1].value.id == i && Updates(Cached(cache, v[..|v| - 1]), v[|v| - 1])
  {
    var n := |v| - 1;
    CachedByIff(cache, v[..n], i);
    forall j | 0 <= j < n ensures v[..n][j] == v[j] {}
  }

  lemma {:induction false} UpdatedIff(cache: map<Item, Value>, v: seq<Option<DataItem>>, i: Item)
    ensures i in Updated(cache, v) <==> exists k :: 0 <= k < |v| && Effect(cache, v, k, i)
  {
    if v != [] {
      var n := |v| - 1;
      UpdatedIff(cache, v[..n], i);
      LastEntryUpdatesIff(cache, v, i);
      forall k | 0 <= k < n ensures Effect(cache, v[..n], k, i) <==> Effect(cache, v, k, i) {
        EffectOfPrefix(cache, v, n, k, i);
      }
    }
  }

  lemma {:induction false} LastEffectIsCached(cache: map<Item, Value>, v: seq<Option<DataItem>>, k: nat, i: Item)
    requires LastEffect(cache, v, k, i)
    ensures i in Cached(cache, v) && Cached(cache, v)[i] == v[k].value.value
  {
    var n := |v| - 1;
    LastEntryUpdatesIff(cache, v, i);
    if k < n {
      forall j | k <= j < n ensures Effect(cache, v[..n], j, i) <==> Effect(cache, v, j, i) {
        EffectOfPrefix(cache, v, n, j, i);
      }
      LastEffectIsCached(cache, v[..n], k, i);
      assert !Effect(cache, v, n, i);
    }
  }

  /** Main theorem on the cache: over a whole vector the items to be sent are those an entry
      changes, each with the value of the last such entry, and nothing else changes. */
  lemma ArrivalsAreCached(cache: map<Item, Value>, v: seq<Option<DataItem>>)
    ensures Arrived(cache, v, Cached(cache, v), Updated(cache, v))
  {
    OnlyUpdatedItemsChange(cache, v);
    forall i ensures i in Updated(cache, v) <==> exists k :: 0 <= k < |v| && Effect(cache, v, k, i) {
      UpdatedIff(cache, v, i);
    }
    forall i, k | 0 <= k < |v| && LastEffect(cache, v, k, i)
      ensures i in Cached(cache, v) && Cached(cache, v)[i] == v[k].value.value
    {
      LastEffectIsCached(cache, v, k, i);
    }
  }

  /** `sent` is what a naive scan would send: every client one call with the updated items it
      subscribes to, and none to a client without such an item. */
  ghost predicate FansOut(sent: seq<Notice>, a: ItemsOf, cache: map<Item, Value>, ids: set<Item>) {
    && (forall k :: 0 <= k < |sent| ==>
          && sent[k].items.Keys == ids * Get(a, sent[k].to) != {}
          && forall i :: i in sent[k].items ==> i in cache && sent[k].items[i] == cache[i])
    && (forall j, k :: 0 <= j < k < |sent| ==> sent[j].to != sent[k].to)
    && (forall c :: ids * Get(a, c) != {} ==> exists k :: 0 <= k < |sent| && sent[k].to == c)
  }

  // ---------- The observer ----------

  class SystemStatusOsObserver {
    var mSubscriptionObj: IDataItemSubscription?
    const mClientToDataItems: LocUnorderedSetMap<Client, Item>
    const mDataItemToClients: LocUnorderedSetMap<Item, Client>
    var mDataItemCache: map<Item, Value>
    var notices: seq<Notice>

    ghost predicate Valid()
      reads this, mClientToDataItems, mDataItemToClients, mSubscriptionObj
    {
      && Inverse(mClientToDataItems.mMap, mDataItemToClients.mMap)
      && (mSubscriptionObj != null ==> mSubscriptionObj.announced == mDataItemToClients.mMap.Keys)
    }

    /** Client `c` subscribes to item `i`. */
    ghost predicate Subscribed(c: Client, i: Item)
      reads mClientToDataItems
    {
      i in Get(mClientToDataItems.mMap, c)
    }

    ghost function Index(): set<object>
      reads this
    {
      {this, mClientToDataItems, mDataItemToClients} + if mSubscriptionObj == null then {} else {mSubscriptionObj}
    }

    constructor ()
      ensures Valid() && mSubscriptionObj == null && mDataItemCache == map[] && notices == []
      ensures fresh(mClientToDataItems) && fresh(mDataItemToClients)
      ensures forall c, i :: !Subscribed(c, i)
    {
      mSubscriptionObj, mDataItemCache, notices := null, map[], [];
      mClientToDataItems := new LocUnorderedSetMap();
      mDataItemToClients := new LocUnorderedSetMap();
    }

    /** From now on the framework is told; it starts with everything anybody wants, so its list
        is right unless it already had an item that nobody wants. */
    method SetSubscriptionObj(framework: IDataItemSubscription)
      requires Valid()
      modifies this, framework
      ensures mSubscriptionObj == framework
      ensures Valid() <==> old(framework.announced) <= mDataItemToClients.mMap.Keys
      ensures var dis := mDataItemToClients.mMap.Keys;
        framework.calls == old(framework.calls) + if dis == {} then [] else [CallSubscribe(dis), CallRequestData(dis)]
      ensures mDataItemToClients.mMap == old(mDataItemToClients.mMap)
      ensures mClientToDataItems.mMap == old(mClientToDataItems.mMap)
      ensures mDataItemCache == old(mDataItemCache) && notices == old(notices)
    {
      mSubscriptionObj := framework;
      assert mDataItemToClients.mMap == map[] <==> mDataItemToClients.mMap.Keys == {};
      if mDataItemToClients.mMap != map[] {
        var dis := mDataItemToClients.GetKeys();
        framework.Subscribe(dis);
        framework.RequestData(dis);
      }
    }

    /** Sends the client what is cached of the items, if anything. */
    method SendCachedDataItems(s: set<Item>, to: Client)
      modifies this`notices
      ensures notices == old(notices) +
        if Restrict(mDataItemCache, s) == map[] then [] else [Notice(to, Restrict(mDataItemCache, s))]
    {
      var dataItems: map<Item, Value> := map[];
      var left := s;
      while left != {}
        invariant left <= s && dataItems == Restrict(mDataItemCache, s - left)
      {
        var i :| i in left;
        left := left - {i};
        if i in mDataItemCache {
          dataItems := dataItems[i := mDataItemCache[i]];
        }
      }
      assert s - left == s;
      if dataItems != map[] {
        notices := notices + [Notice(to, dataItems)];
      }
    }

    /** Enters the pairs of the client and the items; returns the items nobody wanted before. */
    method AddToIndex(items: set<Item>, client: Client) returns (newItems: set<Item>)
      requires Inverse(mClientToDataItems.mMap, mDataItemToClients.mMap) && items != {}
      modifies mClientToDataItems, mDataItemToClients
      ensures Inverse(mClientToDataItems.mMap, mDataItemToClients.mMap)
      ensures forall c, i :: Subscribed(c, i) <==> old(Subscribed(c, i)) || (c == client && i in items)
      ensures newItems == items - old(mDataItemToClients.mMap.Keys)
      ensures mDataItemToClients.mMap.Keys == old(mDataItemToClients.mMap.Keys) + items
    {
      ghost var a, b := mClientToDataItems.mMap, mDataItemToClients.mMap;
      SubscribeKeepsInverse(a, b, client, items);
      newItems := mDataItemToClients.AddAll(items, {client});
      var added := mClientToDataItems.Add(client, items);
      assert mDataItemToClients.mMap == Extended(b, items, {client});
    }

    /** `subscribe` and `requestData`; an empty list is not sent as a message. */
    method HandleSubscribeReq(items: set<Item>, client: Client, toRequestData: bool)
      requires Valid() && items != {}
      modifies Index()
      ensures Valid() && mSubscriptionObj == old(mSubscriptionObj) && mDataItemCache == old(mDataItemCache)
      ensures forall c, i :: Subscribed(c, i) <==> old(Subscribed(c, i)) || (c == client && i in items)
      ensures notices == old(notices) + if Restrict(mDataItemCache, items) == map[] then []
                                        else [Notice(client, Restrict(mDataItemCache, items))]
      ensures mSubscriptionObj != null ==>
        var unwanted := items - old(mDataItemToClients.mMap.Keys);
        mSubscriptionObj.calls == old(mSubscriptionObj.calls) +
          if unwanted == {} then [] else if toRequestData then [CallRequestData(unwanted)] else [CallSubscribe(unwanted)]
    {
      var dataItemsToSubscribe := AddToIndex(items, client);
      assert mDataItemToClients.mMap.Keys == old(mDataItemToClients.mMap.Keys) + dataItemsToSubscribe;
      SendCachedDataItems(items, client);
      if mSubscriptionObj != null && dataItemsToSubscribe != {} {
        if toRequestData {
          mSubscriptionObj.RequestData(dataItemsToSubscribe);
        } else {
          mSubscriptionObj.Subscribe(dataItemsToSubscribe);
        }
      }
    }

    method HandleUnsubscribeReq(items: set<Item>, client: Client)
      requires Valid()
      modifies Index()
      ensures Valid() && mSubscriptionObj == old(mSubscriptionObj) && mDataItemCache == old(mDataItemCache)
      ensures forall c, i :: Subscribed(c, i) <==> old(Subscribed(c, i)) && !(c == client && i in items)
      ensures notices == old(notices)
      ensures mSubscriptionObj != null ==>
        var gone := old(mDataItemToClients.mMap.Keys) - mDataItemToClients.mMap.Keys;
        mSubscriptionObj.calls == old(mSubscriptionObj.calls) + if gone == {} then [] else [CallUnsubscribe(gone)]
    {
      ghost var a, b := mClientToDataItems.mMap, mDataItemToClients.mMap;
      var clientToRemove, dataItemsUnusedByClient := mClientToDataItems.TrimOrRemove({client}, items);
      assert dataItemsUnusedByClient == Get(a, client) * items;
      UnsubscribeKeepsInverse(a, b, client, items, dataItemsUnusedByClient);
      EmptiedAreGone(b, dataItemsUnusedByClient, {client});
      var dataItemsToUnsubscribe, gone := mDataItemToClients.TrimOrRemove(dataItemsUnusedByClient, {client});
      if mSubscriptionObj != null && dataItemsToUnsubscribe != {} {
        mSubscriptionObj.Unsubscribe(dataItemsToUnsubscribe);
      }
    }

    method HandleUnsubscribeAllReq(client: Client)
      requires Valid()
      modifies Index()
      ensures Valid() && mSubscriptionObj == old(mSubscriptionObj) && mDataItemCache == old(mDataItemCache)
      ensures forall c, i :: Subscribed(c, i) <==> old(Subscribed(c, i)) && c != client
      ensures notices == old(notices)
      ensures mSubscriptionObj != null ==>
        var gone := old(mDataItemToClients.mMap.Keys) - mDataItemToClients.mMap.Keys;
        mSubscriptionObj.calls == old(mSubscriptionObj.calls) + if gone == {} then [] else [CallUnsubscribe(gone)]
    {
      var diByClient := mClientToDataItems.GetValSet(client);
      if diByClient != {} {
        UnsubscribeAllKeepsInverse(mClientToDataItems.mMap, mDataItemToClients.mMap, client);
        EmptiedAreGone(mDataItemToClients.mMap, diByClient, {client});
        var removed := mClientToDataItems.Remove(client);
        var dataItemsToUnsubscribe, gone := mDataItemToClients.TrimOrRemove(diByClient, {client});
        if dataItemsToUnsubscribe != {} && mSubscriptionObj != null {
          mSubscriptionObj.Unsubscribe(dataItemsToUnsubscribe);
        }
      }
    }

    /** Replacing a subscription: right for a client that had none, and for no other. */
    method HandleUpdateSubscriptionReq(items: set<Item>, client: Client)
      requires Valid() && items != {}
      modifies Index()
      ensures Valid() <==> forall i :: !old(Subscribed(client, i))
      ensures forall c, i :: Subscribed(c, i) <==> if c == client then i in items else old(Subscribed(c, i))
      ensures mSubscriptionObj == old(mSubscriptionObj) && mDataItemCache == old(mDataItemCache)
      ensures mSubscriptionObj != null ==> mSubscriptionObj.announced == mDataItemToClients.mMap.Keys
      ensures var newItems := items - old(Get(mClientToDataItems.mMap, client));
        notices == old(notices) + if Restrict(mDataItemCache, newItems) == map[] then []
                                  else [Notice(client, Restrict(mDataItemCache, newItems))]
    {
      var added, dataItemsToSubscribe, dataItemsToUnsubscribe := UpdateIndex(items, client);
      SendCachedDataItems(added, client);
      if mSubscriptionObj != null {
        if dataItemsToSubscribe != {} {
          mSubscriptionObj.Subscribe(dataItemsToSubscribe);
        }
        if dataItemsToUnsubscribe != {} {
          mSubscriptionObj.Unsubscribe(dataItemsToUnsubscribe);
        }
      }
    }

    /** What the update does to the two maps. */
    method UpdateIndex(items: set<Item>, client: Client)
      returns (added: set<Item>, toSubscribe: set<Item>, toUnsubscribe: set<Item>)
      requires Inverse(mClientToDataItems.mMap, mDataItemToClients.mMap) && items != {}
      modifies mClientToDataItems, mDataItemToClients
      ensures Inverse(mClientToDataItems.mMap, mDataItemToClients.mMap) <==> forall i :: !old(Subscribed(client, i))
      ensures mClientToDataItems.mMap == old(mClientToDataItems.mMap)[client := items]
      ensures added == items - old(Get(mClientToDataItems.mMap, client))
      ensures mDataItemToClients.mMap.Keys == old(mDataItemToClients.mMap.Keys) + toSubscribe - toUnsubscribe
    {
      UpdateKeepsInverseIff(mClientToDataItems.mMap, mDataItemToClients.mMap, client, items);
      if client in mClientToDataItems.mMap {
        ghost var i :| i in mClientToDataItems.mMap[client];
        assert Subscribed(client, i);
      }
      var common, gone;
      common, added := mClientToDataItems.Update(client, items);
      toUnsubscribe, gone := mDataItemToClients.TrimOrRemove(common, {client});
      toSubscribe := mDataItemToClients.AddAll(added, {client});
    }

    // ---------- Notifications ----------

    method UpdateCache(d: Option<DataItem>) returns (dataItemUpdated: bool)
      modifies this`mDataItemCache
      ensures d.None? || !d.value.accepted ==> !dataItemUpdated
      ensures d.Some? && d.value.accepted && d.value.id !in old(mDataItemCache) ==> dataItemUpdated == d.value.created
      ensures d.Some? && d.value.accepted && d.value.id in old(mDataItemCache) ==> dataItemUpdated == d.value.copied
      ensures mDataItemCache ==
        if dataItemUpdated then old(mDataItemCache)[d.value.id := d.value.value] else old(mDataItemCache)
    {
      dataItemUpdated := false;
      if d.Some? && d.value.accepted {
        if d.value.id !in mDataItemCache {
          if d.value.created {
            mDataItemCache := mDataItemCache[d.value.id := d.value.value];
            dataItemUpdated := true;
          }
        } else if d.value.copied {
          mDataItemCache := mDataItemCache[d.value.id := d.value.value];
          dataItemUpdated := true;
        }
      }
    }

    method UpdateAll(v: seq<Option<DataItem>>) returns (ids: set<Item>)
      modifies this`mDataItemCache
      ensures mDataItemCache == Cached(old(mDataItemCache), v) && ids == Updated(old(mDataItemCache), v)
    {
      ids := {};
      var k := 0;
      while k < |v|
        invariant 0 <= k <= |v|
        invariant mDataItemCache == Cached(old(mDataItemCache), v[..k])
        invariant ids == Updated(old(mDataItemCache), v[..k])
      {
        assert v[..k + 1][..k] == v[..k];
        var updated := UpdateCache(v[k]);
        if updated {
          ids := ids + {v[k].value.id};
        }
        k := k + 1;
      }
      assert v[..k] == v;
    }

    /** Every client of one of the items. */
    method ClientsOfItems(ids: set<Item>) returns (clientSet: set<Client>)
      ensures forall c :: c in clientSet <==> exists i :: i in ids && c in Get(mDataItemToClients.mMap, i)
    {
      clientSet := {};
      var left := ids;
      while left != {}
        invariant left <= ids
        invariant forall c :: c in clientSet <==> exists i :: i in ids - left && c in Get(mDataItemToClients.mMap, i)
      {
        var i :| i in left;
        left := left - {i};
        clientSet := clientSet + mDataItemToClients.GetValSet(i);
      }
    }

    /** The items of a client that are among `ids`, by erasing the others. */
    method ItemsForClient(client: Client, ids: set<Item>) returns (mine: set<Item>)
      ensures mine == ids * Get(mClientToDataItems.mMap, client)
    {
      var all := mClientToDataItems.GetValSet(client);
      mine := all;
      var left := all;
      while left != {}
        invariant left <= all
        invariant mine == left + (all - left) * ids
      {
        var i :| i in left;
        left := left - {i};
        if i !in ids {
          mine := mine - {i};
        }
      }
    }

    /** `sent` serves the clients in `served` and nobody else. */
    ghost predicate Served(sent: seq<Notice>, ids: set<Item>, served: set<Client>)
      reads this, mClientToDataItems
    {
      && (forall k :: 0 <= k < |sent| ==> sent[k].to in served)
      && (forall k :: 0 <= k < |sent| ==>
            sent[k].items == Restrict(mDataItemCache, ids * Get(mClientToDataItems.mMap, sent[k].to)))
      && (forall j, k :: 0 <= j < k < |sent| ==> sent[j].to != sent[k].to)
      && (forall c :: c in served ==> exists k :: 0 <= k < |sent| && sent[k].to == c)
    }

    method SendToClients(clientSet: set<Client>, ids: set<Item>) returns (ghost sent: seq<Notice>)
      requires ids <= mDataItemCache.Keys
      requires forall c :: c in clientSet ==> ids * Get(mClientToDataItems.mMap, c) != {}
      modifies this`notices
      ensures notices == old(notices) + sent && Served(sent, ids, clientSet)
    {
      sent := [];
      var left := clientSet;
      while left != {}
        invariant left <= clientSet
        invariant notices == old(notices) + sent && Served(sent, ids, clientSet - left)
      {
        var client :| client in left;
        ghost var done := clientSet - left;
        left := left - {client};
        var mine := ItemsForClient(client, ids);
        SomeItemIsSent(mDataItemCache, mine);
        SendCachedDataItems(mine, client);
        ghost var before := sent;
        sent := sent + [Notice(client, Restrict(mDataItemCache, mine))];
        forall c | c in clientSet - left ensures exists k :: 0 <= k < |sent| && sent[k].to == c {
          if c == client {
            assert sent[|before|].to == c;
          } else {
            assert c in done;
            var k :| 0 <= k < |before| && before[k].to == c;
            assert sent[k].to == c;
          }
        }
      }
      assert clientSet - left == clientSet;
    }

    /** A notification: `ids` are the items it changes, and through the index it reaches the
        clients a naive scan would reach. */
    method HandleNotify(v: seq<Option<DataItem>>) returns (ghost sent: seq<Notice>, ghost ids: set<Item>)
      requires Valid()
      modifies this`mDataItemCache, this`notices
      ensures Valid() && Arrived(old(mDataItemCache), v, mDataItemCache, ids)
      ensures notices == old(notices) + sent
      ensures FansOut(sent, mClientToDataItems.mMap, mDataItemCache, ids)
    {
      ArrivalsAreCached(mDataItemCache, v);
      var dataItemIdsToBeSent := UpdateAll(v);
      ids := dataItemIdsToBeSent;
      var clientSet := ClientsOfItems(dataItemIdsToBeSent);
      ClientsAreServed(mClientToDataItems.mMap, mDataItemToClients.mMap, ids, clientSet);
      sent := SendToClients(clientSet, dataItemIdsToBeSent);
    }
  }

  lemma SomeItemIsSent(cache: map<Item, Value>, s: set<Item>)
    requires s <= cache.Keys && s != {}
    ensures Restrict(cache, s) != map[]
  {
    var i :| i in s;
    assert i in Restrict(cache, s);
  }

  /** The clients of some updated item are the clients with an updated item. */
  lemma ClientsAreServed(a: ItemsOf, b: ClientsOf, ids: set<Item>, clientSet: set<Client>)
    requires Inverse(a, b)
    requires forall c :: c in clientSet <==> exists i :: i in ids && c in Get(b, i)
    ensures forall c :: c in clientSet <==> ids * Get(a, c) != {}
  {
    forall c ensures c in clientSet <==> ids * Get(a, c) != {} {
      if c in clientSet {
        var i :| i in ids && c in Get(b, i);
        assert i in ids * Get(a, c);
      }
      if ids * Get(a, c) != {} {
        var i :| i in ids * Get(a, c);
        assert c in Get(b, i);
      }
    }
  }
}
