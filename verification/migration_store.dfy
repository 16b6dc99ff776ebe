/** The migration adapter keeps "which migrations ran" as bindings of the
    migration exchange onto itself: one binding per executed migration, its
    routing key naming the migration list and its arguments holding the
    migration's native form. The broker's binding listing is modelled as a
    sequence of entries, each with the properties key the broker gave it. */
module MigrationStore {
  import opened Values
  import Topology

  /** A migration as the adapter sees it: its class and when it ran. */
  datatype Migration = Migration(typeName: string, executedAt: string)

  /** `toNative()`: the binding arguments `@type` and `executedAt`. */
  datatype Native = Native(typeName: string, executedAt: string)

  function ToNative(m: Migration): Native {
    Native(m.typeName, m.executedAt)
  }

  /** `new $migrationClass(new \DateTimeImmutable($executedAt))`. */
  function FromNative(n: Native): Migration {
    Migration(n.typeName, n.executedAt)
  }

  lemma NativeRoundTrip(m: Migration, n: Native)
    ensures FromNative(ToNative(m)) == m
    ensures ToNative(FromNative(n)) == n
  {
  }

  /** One binding in the listing of the migration exchange. */
  datatype Entry = Entry(propertiesKey: nat, routingKey: string, arguments: Native)

  /** The listing, in the broker's order, and the next properties key the
      broker will hand out. */
  datatype Store = Store(entries: seq<Entry>, nextKey: nat)

  // ---------------------------------------------------------------------
  // read
  // ---------------------------------------------------------------------

  /** The `array_filter` of `read`: the entries of one migration list. */
  function WithRoutingKey(es: seq<Entry>, id: string): (r: seq<Entry>)
    ensures forall e :: e in r <==> e in es && e.routingKey == id
    ensures forall e :: multiset(r)[e] == if e.routingKey == id then multiset(es)[e] else 0
    ensures |r| <= |es|
  {
    if es == [] then []
    else
      assert es == [es[0]] + es[1..];
      if es[0].routingKey == id then [es[0]] + WithRoutingKey(es[1..], id)
      else WithRoutingKey(es[1..], id)
  }

  function Instantiate(es: seq<Entry>): (ms: seq<Migration>)
    ensures |ms| == |es|
    ensures forall i :: 0 <= i < |es| ==> ms[i] == FromNative(es[i].arguments)
  {
    if es == [] then [] else [FromNative(es[0].arguments)] + Instantiate(es[1..])
  }

  /** Versions are a property of the migration class. */
  predicate SortedByVersion(ms: seq<Migration>, versionOf: string -> int) {
    forall i :: 0 < i < |ms| ==> versionOf(ms[i - 1].typeName) <= versionOf(ms[i].typeName)
  }

  /** Insert `m` in front of the first migration of a higher version. */
  function InsertByVersion(m: Migration, ms: seq<Migration>, versionOf: string -> int): (r: seq<Migration>)
    ensures |r| == |ms| + 1
    ensures r[0] == m || (|ms| > 0 && r[0] == ms[0])
  {
    if ms == [] || versionOf(m.typeName) < versionOf(ms[0].typeName) then [m] + ms
    else [ms[0]] + InsertByVersion(m, ms[1..], versionOf)
  }

  lemma SortedTail(ms: seq<Migration>, versionOf: string -> int)
    requires |ms| > 0 && SortedByVersion(ms, versionOf)
    ensures SortedByVersion(ms[1..], versionOf)
  {
    forall i | 0 < i < |ms[1..]|
      ensures versionOf(ms[1..][i - 1].typeName) <= versionOf(ms[1..][i].typeName)
    {
      assert ms[1..][i - 1] == ms[i] && ms[1..][i] == ms[i + 1];
    }
  }

  /** Putting a migration in front of a sorted sequence whose head is of
      the same or a higher version keeps it sorted. */
  lemma SortedCons(m: Migration, ms: seq<Migration>, versionOf: string -> int)
    requires SortedByVersion(ms, versionOf)
    requires |ms| > 0 ==> versionOf(m.typeName) <= versionOf(ms[0].typeName)
    ensures SortedByVersion([m] + ms, versionOf)
  {
    var r := [m] + ms;
    forall i | 0 < i < |r| ensures versionOf(r[i - 1].typeName) <= versionOf(r[i].typeName) {
      if i > 1 { assert r[i - 1] == ms[i - 2] && r[i] == ms[i - 1]; }
    }
  }

  /** Inserting into a sorted sequence keeps it sorted. */
  lemma {:induction false} InsertByVersionSorted(m: Migration, ms: seq<Migration>, versionOf: string -> int)
    requires SortedByVersion(ms, versionOf)
    ensures SortedByVersion(InsertByVersion(m, ms, versionOf), versionOf)
    decreases |ms|
  {
    if ms == [] || versionOf(m.typeName) < versionOf(ms[0].typeName) {
      SortedCons(m, ms, versionOf);
    } else {
      SortedTail(ms, versionOf);
      InsertByVersionSorted(m, ms[1..], versionOf);
      var rest := InsertByVersion(m, ms[1..], versionOf);
      assert |ms[1..]| > 0 ==> versionOf(ms[0].typeName) <= versionOf(ms[1..][0].typeName);
      SortedCons(ms[0], rest, versionOf);
    }
  }

  /** Inserting adds exactly the one migration. */
  lemma {:induction false} InsertByVersionPermutes(m: Migration, ms: seq<Migration>, versionOf: string -> int)
    ensures multiset(InsertByVersion(m, ms, versionOf)) == multiset(ms) + multiset{m}
    decreases |ms|
  {
    if ms != [] && versionOf(ms[0].typeName) <= versionOf(m.typeName) {
      InsertByVersionPermutes(m, ms[1..], versionOf);
      assert ms == [ms[0]] + ms[1..];
    }
  }

  /** `MigrationList::sortByVersion`: the same migrations, ordered by version. */
  function SortByVersion(ms: seq<Migration>, versionOf: string -> int): (r: seq<Migration>)
    ensures SortedByVersion(r, versionOf)
    ensures multiset(r) == multiset(ms)
  {
    if ms == [] then []
    else
      var rest := SortByVersion(ms[1..], versionOf);
      InsertByVersionSorted(ms[0], rest, versionOf);
      InsertByVersionPermutes(ms[0], rest, versionOf);
      assert ms == [ms[0]] + ms[1..];
      InsertByVersion(ms[0], rest, versionOf)
  }

  /** `read($identifier)`: the migrations of the list `id`, ordered by version. */
  function Read(st: Store, id: string, versionOf: string -> int): (r: seq<Migration>)
    ensures SortedByVersion(r, versionOf)
    ensures multiset(r) == multiset(Instantiate(WithRoutingKey(st.entries, id)))
  {
    SortByVersion(Instantiate(WithRoutingKey(st.entries, id)), versionOf)
  }

  /** Read returns a migration exactly when a stored entry of that list
      holds its native form. */
  lemma ReadSelectsList(st: Store, id: string, versionOf: string -> int, m: Migration)
    ensures m in Read(st, id, versionOf) <==>
      exists e :: e in st.entries && e.routingKey == id && e.arguments == ToNative(m)
  {
    var sel := WithRoutingKey(st.entries, id);
    var r := Read(st, id, versionOf);
    assert m in r <==> m in multiset(r);
    InstantiateHolds(sel, m);
  }

  /** A migration is among the instantiated entries exactly when one of
      them holds its native form. */
  lemma InstantiateHolds(es: seq<Entry>, m: Migration)
    ensures m in Instantiate(es) <==> exists e :: e in es && e.arguments == ToNative(m)
  {
    var ms := Instantiate(es);
    if m in ms {
      var i :| 0 <= i < |ms| && ms[i] == m;
      assert es[i] in es;
    }
    if exists e :: e in es && e.arguments == ToNative(m) {
      var e :| e in es && e.arguments == ToNative(m);
      var i :| 0 <= i < |es| && es[i] == e;
      assert ms[i] == m;
    }
  }

  // ---------------------------------------------------------------------
  // write
  // ---------------------------------------------------------------------

  /** The requests of `write`, all addressed to the binding collection of
      the migration exchange onto itself; a DELETE names the binding by its
      properties key. */
  datatype StoreCmd =
    | DeleteBinding(uri: string, propertiesKey: nat)
    | PostBinding(uri: string, routingKey: string, arguments: Native)

  /** `/api/bindings/<vhost>/e/<exchange>/e/<exchange>`. */
  function BindingsUri(vhost: string, exchange: string): (uri: string)
    ensures uri == Topology.ExchangeBindingUri(vhost, exchange, exchange)
  {
    "/api/bindings/" + vhost + "/e/" + exchange + "/e/" + exchange
  }

  function DeleteRequests(uri: string, es: seq<Entry>): (cmds: seq<StoreCmd>)
    ensures |cmds| == |es|
    ensures forall i :: 0 <= i < |es| ==> cmds[i] == DeleteBinding(uri, es[i].propertiesKey)
  {
    if es == [] then [] else [DeleteBinding(uri, es[0].propertiesKey)] + DeleteRequests(uri, es[1..])
  }

  function PostRequests(uri: string, id: string, ms: seq<Migration>): (cmds: seq<StoreCmd>)
    ensures |cmds| == |ms|
    ensures forall i :: 0 <= i < |ms| ==> cmds[i] == PostBinding(uri, id, ToNative(ms[i]))
  {
    if ms == [] then [] else [PostBinding(uri, id, ToNative(ms[0]))] + PostRequests(uri, id, ms[1..])
  }

  /** The requests `write($identifier, $executedMigrations)` sends against a
      store: a DELETE for every listed binding, whatever its routing key,
      then a POST per migration. */
  function WriteRequests(st: Store, vhost: string, exchange: string, id: string, ms: seq<Migration>): seq<StoreCmd> {
    var uri := BindingsUri(vhost, exchange);
    DeleteRequests(uri, st.entries) + PostRequests(uri, id, ms)
  }

  /** Every stored binding has a properties key below the next one the
      broker hands out. */
  predicate Valid(st: Store) {
    forall e :: e in st.entries ==> e.propertiesKey < st.nextKey
  }

  /** The broker's reaction: a DELETE drops the binding with that key, a
      POST appends a binding under a key no stored binding has. */
  function ApplyStore(c: StoreCmd, st: Store): (t: Store)
    ensures c.DeleteBinding? ==> forall e :: e in t.entries <==> e in st.entries && e.propertiesKey != c.propertiesKey
    ensures c.PostBinding? ==> t.entries == st.entries + [Entry(st.nextKey, c.routingKey, c.arguments)]
    ensures c.PostBinding? && Valid(st) ==>
      forall e :: e in st.entries ==> e.propertiesKey != t.entries[|t.entries| - 1].propertiesKey
    ensures Valid(st) ==> Valid(t)
    ensures st.nextKey <= t.nextKey
  {
    match c
    case DeleteBinding(_, k) => Store(Surviving(st.entries, {k}), st.nextKey)
    case PostBinding(_, rk, args) => Store(st.entries + [Entry(st.nextKey, rk, args)], st.nextKey + 1)
  }

  /** The entries whose properties key is not among `keys`, in order. */
  function Surviving(es: seq<Entry>, keys: set<nat>): (r: seq<Entry>)
    ensures forall e :: e in r <==> e in es && e.propertiesKey !in keys
    ensures |r| <= |es|
  {
    if es == [] then []
    else if es[0].propertiesKey in keys then Surviving(es[1..], keys)
    else [es[0]] + Surviving(es[1..], keys)
  }

  lemma {:induction false} SurvivingCompose(es: seq<Entry>, a: set<nat>, b: set<nat>)
    ensures Surviving(Surviving(es, a), b) == Surviving(es, a + b)
  {
    if es != [] {
      SurvivingCompose(es[1..], a, b);
    }
  }

  lemma {:induction false} SurvivingNone(es: seq<Entry>, keys: set<nat>)
    requires forall i :: 0 <= i < |es| ==> es[i].propertiesKey in keys
    ensures Surviving(es, keys) == []
  {
    if es != [] {
      SurvivingNone(es[1..], keys);
    }
  }

  function KeysOf(es: seq<Entry>): set<nat> {
    set e | e in es :: e.propertiesKey
  }

  function RunStore(cmds: seq<StoreCmd>, st: Store): Store
    decreases |cmds|
  {
    if cmds == [] then st else RunStore(cmds[1..], ApplyStore(cmds[0], st))
  }

  /** Any sequence of requests keeps every stored key below the next one. */
  lemma {:induction false} RunStoreValid(cmds: seq<StoreCmd>, st: Store)
    requires Valid(st)
    ensures Valid(RunStore(cmds, st))
    decreases |cmds|
  {
    if cmds != [] {
      RunStoreValid(cmds[1..], ApplyStore(cmds[0], st));
    }
  }

  /** `write`: the store after the adapter's requests. */
  function Write(st: Store, vhost: string, exchange: string, id: string, ms: seq<Migration>): Store {
    RunStore(WriteRequests(st, vhost, exchange, id, ms), st)
  }

  lemma {:induction false} RunStoreAppend(a: seq<StoreCmd>, b: seq<StoreCmd>, st: Store)
    ensures RunStore(a + b, st) == RunStore(b, RunStore(a, st))
    decreases |a|
  {
    if a == [] {
      assert a + b == b;
    } else {
      assert (a + b)[1..] == a[1..] + b;
      RunStoreAppend(a[1..], b, ApplyStore(a[0], st));
    }
  }

  /** Deleting by the keys of some entries keeps, in order, exactly the
      entries whose key is none of them. */
  lemma {:induction false} DeletesRemoveKeys(uri: string, ds: seq<Entry>, st: Store)
    ensures RunStore(DeleteRequests(uri, ds), st) == Store(Surviving(st.entries, KeysOf(ds)), st.nextKey)
    decreases |ds|
  {
    if ds == [] {
      SurvivingNone([], {});
      assert KeysOf(ds) == {};
      SurvivingAll(st.entries);
    } else {
      var k := ds[0].propertiesKey;
      var next := ApplyStore(DeleteBinding(uri, k), st);
      assert DeleteRequests(uri, ds)[1..] == DeleteRequests(uri, ds[1..]);
      DeletesRemoveKeys(uri, ds[1..], next);
      SurvivingCompose(st.entries, {k}, KeysOf(ds[1..]));
      assert forall d :: d in ds <==> d == ds[0] || d in ds[1..];
      assert KeysOf(ds) == {k} + KeysOf(ds[1..]);
    }
  }

  lemma {:induction false} SurvivingAll(es: seq<Entry>)
    ensures Surviving(es, {}) == es
  {
    if es != [] {
      SurvivingAll(es[1..]);
      assert es == [es[0]] + es[1..];
    }
  }

  /** The entries posted for a migration list, under consecutive keys starting at `from`. */
  function Posted(from: nat, id: string, ms: seq<Migration>): (es: seq<Entry>)
    ensures |es| == |ms|
    decreases |ms|
  {
    if ms == [] then [] else [Entry(from, id, ToNative(ms[0]))] + Posted(from + 1, id, ms[1..])
  }

  lemma {:induction false} PostsAppend(uri: string, id: string, ms: seq<Migration>, st: Store)
    ensures RunStore(PostRequests(uri, id, ms), st) == Store(st.entries + Posted(st.nextKey, id, ms), st.nextKey + |ms|)
    decreases |ms|
  {
    if ms != [] {
      var e0 := Entry(st.nextKey, id, ToNative(ms[0]));
      var next := ApplyStore(PostBinding(uri, id, ToNative(ms[0])), st);
      assert next == Store(st.entries + [e0], st.nextKey + 1);
      var cmds := PostRequests(uri, id, ms);
      assert cmds == [PostBinding(uri, id, ToNative(ms[0]))] + PostRequests(uri, id, ms[1..]);
      assert cmds[1..] == PostRequests(uri, id, ms[1..]);
      assert RunStore(cmds, st) == RunStore(cmds[1..], next);
      PostsAppend(uri, id, ms[1..], next);
      var tail := Posted(st.nextKey + 1, id, ms[1..]);
      assert Posted(st.nextKey, id, ms) == [e0] + tail;
      assert (st.entries + [e0]) + tail == st.entries + ([e0] + tail);
    }
  }

  /** `write` first removes every listed binding, whatever list it belongs
      to, then leaves one binding per migration, in order, with the list's
      routing key and the migration's native form as arguments. */
  lemma WriteReplacesListing(st: Store, vhost: string, exchange: string, id: string, ms: seq<Migration>)
    ensures Write(st, vhost, exchange, id, ms).entries == Posted(st.nextKey, id, ms)
  {
    var uri := BindingsUri(vhost, exchange);
    var dels := DeleteRequests(uri, st.entries);
    RunStoreAppend(dels, PostRequests(uri, id, ms), st);
    DeletesRemoveKeys(uri, st.entries, st);
    SurvivingNone(st.entries, KeysOf(st.entries));
    var cleared := RunStore(dels, st);
    PostsAppend(uri, id, ms, cleared);
  }

  /** Every request of `write` goes to the migration exchange's bindings onto
      itself; the deletes come first, one per listed binding. */
  lemma WriteRequestsShape(st: Store, vhost: string, exchange: string, id: string, ms: seq<Migration>)
    ensures var cmds := WriteRequests(st, vhost, exchange, id, ms);
      && |cmds| == |st.entries| + |ms|
      && (forall c :: c in cmds ==> c.uri == Topology.ExchangeBindingUri(vhost, exchange, exchange))
      && (forall i :: 0 <= i < |st.entries| ==> cmds[i] == DeleteBinding(cmds[i].uri, st.entries[i].propertiesKey))
      && (forall j :: 0 <= j < |ms| ==>
            (cmds[|st.entries| + j].PostBinding?
             && cmds[|st.entries| + j].routingKey == id
             && cmds[|st.entries| + j].arguments == ToNative(ms[j])))
  {
    var uri := BindingsUri(vhost, exchange);
    var cmds := WriteRequests(st, vhost, exchange, id, ms);
    var d, p := DeleteRequests(uri, st.entries), PostRequests(uri, id, ms);
    forall c | c in cmds
      ensures c.uri == uri
    {
      var i :| 0 <= i < |cmds| && cmds[i] == c;
      if i < |d| {
        assert c == d[i];
      } else {
        assert c == p[i - |d|];
      }
    }
  }

  /** The posted entry for the `i`-th migration has the key `from + i`. */
  lemma {:induction false} PostedAt(from: nat, id: string, ms: seq<Migration>, i: nat)
    requires i < |ms|
    ensures Posted(from, id, ms)[i] == Entry(from + i, id, ToNative(ms[i]))
    decreases i
  {
    if i > 0 {
      PostedAt(from + 1, id, ms[1..], i - 1);
    }
  }

  lemma InstantiatePosted(from: nat, id: string, ms: seq<Migration>)
    ensures Instantiate(Posted(from, id, ms)) == ms
  {
    var es := Posted(from, id, ms);
    forall i | 0 <= i < |ms|
      ensures FromNative(es[i].arguments) == ms[i]
    {
      PostedAt(from, id, ms, i);
    }
  }

  /** Reading a list back after writing it yields exactly the migrations
      written, ordered by version; every other list reads empty. */
  lemma ReadAfterWrite(st: Store, vhost: string, exchange: string, id: string, ms: seq<Migration>,
                       other: string, versionOf: string -> int)
    requires other != id
    ensures var t := Write(st, vhost, exchange, id, ms);
      && multiset(Read(t, id, versionOf)) == multiset(ms)
      && |Read(t, id, versionOf)| == |ms|
      && Read(t, other, versionOf) == []
  {
    var t := Write(st, vhost, exchange, id, ms);
    WriteReplacesListing(st, vhost, exchange, id, ms);
    PostedFiltered(st.nextKey, id, ms, other);
    InstantiatePosted(st.nextKey, id, ms);
    assert multiset(Read(t, id, versionOf)) == multiset(ms);
    assert |Read(t, id, versionOf)| == |multiset(ms)|;
  }

  /** The posted entries all belong to the written list. */
  lemma {:induction false} PostedFiltered(from: nat, id: string, ms: seq<Migration>, other: string)
    requires other != id
    ensures WithRoutingKey(Posted(from, id, ms), id) == Posted(from, id, ms)
    ensures WithRoutingKey(Posted(from, id, ms), other) == []
    decreases |ms|
  {
    if ms != [] {
      PostedFiltered(from + 1, id, ms[1..], other);
      var es := Posted(from, id, ms);
      assert es[1..] == Posted(from + 1, id, ms[1..]);
    }
  }
}
