/**
 * The QuickSight registry of one (account, region) pair: groups, users and
 * data sources, each kept in an insertion-ordered dictionary under the
 * composite key `account:namespace:id`.
 */
module Models {
  import opened Wrappers
  import opened Exceptions
  import opened Json
  import opened OrderedMaps
  import opened DataModels

  /** `_create_id`: the composite key. */
  function CreateId(awsAccountId: string, namespace: string, id: string): string
  {
    awsAccountId + ":" + namespace + ":" + id
  }

  /** The key prefix shared by everything in one account and namespace. */
  function NamespacePrefix(awsAccountId: string, namespace: string): string
  {
    CreateId(awsAccountId, namespace, "")
  }

  /** Every key starts with the prefix of its own account and namespace. */
  lemma KeyHasNamespacePrefix(a: string, n: string, id: string)
    ensures NamespacePrefix(a, n) <= CreateId(a, n, id)
  {
    assert CreateId(a, n, id) == NamespacePrefix(a, n) + id;
  }

  /** In `x + ":" + s` with `x` colon-free, the first colon is at index `|x|`. */
  lemma ColonFollows(x: string, s: string)
    requires ':' !in x
    ensures (x + [':'] + s)[|x|] == ':'
    ensures forall i :: 0 <= i < |x| ==> (x + [':'] + s)[i] != ':'
  {
    forall i | 0 <= i < |x| ensures (x + [':'] + s)[i] != ':' {
      assert (x + [':'] + s)[i] == x[i];
    }
  }

  /** Two colon-free words followed by a colon can only agree if the words do. */
  lemma {:induction false} SplitAtColon(x: string, y: string, s: string, t: string)
    requires ':' !in x && ':' !in y
    requires x + [':'] + s == y + [':'] + t
    ensures x == y && s == t
  {
    var l := x + [':'] + s;
    ColonFollows(x, s);
    ColonFollows(y, t);
    assert |x| == |y|;
    assert x == l[..|x|];
    assert y == (y + [':'] + t)[..|y|];
    assert s == l[|x| + 1..];
    assert t == (y + [':'] + t)[|y| + 1..];
  }

  /**
   * With colon-free accounts and namespaces, a key lies under the prefix of
   * exactly its own account and namespace.
   */
  lemma {:induction false} NamespacePrefixExact(a: string, n: string, a': string, n': string, id: string)
    requires ':' !in a && ':' !in n && ':' !in a' && ':' !in n'
    ensures NamespacePrefix(a, n) <= CreateId(a', n', id) <==> a == a' && n == n'
  {
    if NamespacePrefix(a, n) <= CreateId(a', n', id) {
      var p := NamespacePrefix(a, n);
      var rest := CreateId(a', n', id)[|p|..];
      assert CreateId(a', n', id) == p + rest;
      assert p + rest == a + [':'] + (n + [':'] + rest);
      assert CreateId(a', n', id) == a' + [':'] + (n' + [':'] + id);
      assert a + [':'] + (n + [':'] + rest) == a' + [':'] + (n' + [':'] + id);
      SplitAtColon(a, a', n + [':'] + rest, n' + [':'] + id);
      SplitAtColon(n, n', rest, id);
    } else {
      if a == a' && n == n' { KeyHasNamespacePrefix(a, n, id); }
    }
  }

  /** With colon-free accounts and namespaces, distinct triples have distinct keys. */
  lemma {:induction false} CreateIdInjective(a: string, n: string, id: string, a': string, n': string, id': string)
    requires ':' !in a && ':' !in n && ':' !in a' && ':' !in n'
    requires CreateId(a, n, id) == CreateId(a', n', id')
    ensures a == a' && n == n' && id == id'
  {
    assert CreateId(a, n, id) == a + [':'] + (n + [':'] + id);
    assert CreateId(a', n', id') == a' + [':'] + (n' + [':'] + id');
    assert a + [':'] + (n + [':'] + id) == a' + [':'] + (n' + [':'] + id');
    SplitAtColon(a, a', n + [':'] + id, n' + [':'] + id');
    SplitAtColon(n, n', id, id');
  }

  /** A colon inside an account or namespace lets two different triples share a key. */
  lemma ColonCollision()
    ensures CreateId("a:b", "c", "d") == CreateId("a", "b:c", "d")
  {
  }

  /** ... and lets the listing of namespace `n` take in a group of namespace `n:x`. */
  lemma ColonNamespaceOvermatch()
    ensures NamespacePrefix("111", "default") <= CreateId("111", "default:x", "g")
  {
    assert CreateId("111", "default:x", "g") == NamespacePrefix("111", "default") + "x:g";
  }

  /**
   * `[v for k, v in d.items() if k.startswith(prefix)]`: the values under
   * the keys that start with `prefix`, in key order.
   */
  function ValuesWithPrefix<V>(keys: seq<string>, entries: map<string, V>, prefix: string): (r: seq<V>)
    requires forall k :: k in keys ==> k in entries
    ensures |r| <= |keys|
    ensures forall i :: 0 <= i < |r| ==> exists k :: k in keys && prefix <= k && entries[k] == r[i]
    ensures forall k :: k in keys && prefix <= k ==> entries[k] in r
    decreases |keys|
  {
    if keys == [] then []
    else
      var init, last := keys[..|keys| - 1], keys[|keys| - 1];
      assert keys == init + [last];
      ValuesWithPrefix(init, entries, prefix) + (if prefix <= last then [entries[last]] else [])
  }

  /** Selecting from one more key adds that key's value at the end, if it matches. */
  lemma ValuesWithPrefixSnoc<V>(keys: seq<string>, entries: map<string, V>, prefix: string, k: string)
    requires forall x :: x in keys ==> x in entries
    requires k in entries
    ensures ValuesWithPrefix(keys + [k], entries, prefix)
         == ValuesWithPrefix(keys, entries, prefix) + (if prefix <= k then [entries[k]] else [])
  {
    assert (keys + [k])[..|keys|] == keys;
  }

  /** Selecting from two runs of keys selects from each in turn. */
  lemma {:induction false} ValuesWithPrefixAppend<V>(xs: seq<string>, ys: seq<string>, entries: map<string, V>, prefix: string)
    requires forall x :: x in xs ==> x in entries
    requires forall y :: y in ys ==> y in entries
    ensures ValuesWithPrefix(xs + ys, entries, prefix)
         == ValuesWithPrefix(xs, entries, prefix) + ValuesWithPrefix(ys, entries, prefix)
    decreases |ys|
  {
    if ys == [] {
      assert xs + ys == xs;
    } else {
      var init, last := ys[..|ys| - 1], ys[|ys| - 1];
      assert ys == init + [last];
      assert xs + ys == (xs + init) + [last];
      ValuesWithPrefixAppend(xs, init, entries, prefix);
      ValuesWithPrefixSnoc(xs + init, entries, prefix, last);
      ValuesWithPrefixSnoc(init, entries, prefix, last);
    }
  }

  /** The selection depends only on the values under the scanned keys. */
  lemma {:induction false} ValuesWithPrefixAgree<V>(keys: seq<string>, e1: map<string, V>, e2: map<string, V>, prefix: string)
    requires forall k :: k in keys ==> k in e1 && k in e2 && e1[k] == e2[k]
    ensures ValuesWithPrefix(keys, e1, prefix) == ValuesWithPrefix(keys, e2, prefix)
    decreases |keys|
  {
    if keys != [] {
      var init := keys[..|keys| - 1];
      assert keys == init + [keys[|keys| - 1]];
      ValuesWithPrefixAgree(init, e1, e2, prefix);
    }
  }

  /** The selection split around the key at position `i`. */
  lemma ValuesWithPrefixAround<V>(m: OrderedMap<string, V>, i: nat, prefix: string)
    requires m.Valid() && i < |m.keys|
    ensures ValuesWithPrefix(m.keys, m.entries, prefix)
         == ValuesWithPrefix(m.keys[..i], m.entries, prefix)
          + (if prefix <= m.keys[i] then [m.entries[m.keys[i]]] else [])
          + ValuesWithPrefix(m.keys[i + 1..], m.entries, prefix)
  {
    var k := m.keys[i];
    assert m.keys == (m.keys[..i] + [k]) + m.keys[i + 1..];
    ValuesWithPrefixAppend(m.keys[..i] + [k], m.keys[i + 1..], m.entries, prefix);
    ValuesWithPrefixSnoc(m.keys[..i], m.entries, prefix, k);
  }

  /**
   * Overwriting an existing key keeps its place in the selection: the new
   * value, if the key matches, stands where the old one stood.
   */
  lemma ValuesWithPrefixPutExisting<V>(m: OrderedMap<string, V>, i: nat, v: V, prefix: string)
    requires m.Valid() && i < |m.keys|
    ensures ValuesWithPrefix(m.keys, m.entries, prefix)
         == ValuesWithPrefix(m.keys[..i], m.entries, prefix)
          + (if prefix <= m.keys[i] then [m.entries[m.keys[i]]] else [])
          + ValuesWithPrefix(m.keys[i + 1..], m.entries, prefix)
    ensures ValuesWithPrefix(m.Put(m.keys[i], v).keys, m.Put(m.keys[i], v).entries, prefix)
         == ValuesWithPrefix(m.keys[..i], m.entries, prefix)
          + (if prefix <= m.keys[i] then [v] else [])
          + ValuesWithPrefix(m.keys[i + 1..], m.entries, prefix)
  {
    var k := m.keys[i];
    var r := m.Put(k, v);
    ValuesWithPrefixAround(m, i, prefix);
    ValuesWithPrefixAround(r, i, prefix);
    forall x | x in m.keys[..i] ensures x in r.entries && x in m.entries && r.entries[x] == m.entries[x] {
      assert r.Get(x) == m.Get(x);
    }
    forall x | x in m.keys[i + 1..] ensures x in r.entries && x in m.entries && r.entries[x] == m.entries[x] {
      assert r.Get(x) == m.Get(x);
    }
    ValuesWithPrefixAgree(m.keys[..i], r.entries, m.entries, prefix);
    ValuesWithPrefixAgree(m.keys[i + 1..], r.entries, m.entries, prefix);
  }

  /** Popping a key drops exactly its value from the selection; the rest keep their order. */
  lemma ValuesWithPrefixRemove<V>(m: OrderedMap<string, V>, i: nat, prefix: string)
    requires m.Valid() && i < |m.keys|
    ensures ValuesWithPrefix(m.keys, m.entries, prefix)
         == ValuesWithPrefix(m.keys[..i], m.entries, prefix)
          + (if prefix <= m.keys[i] then [m.entries[m.keys[i]]] else [])
          + ValuesWithPrefix(m.keys[i + 1..], m.entries, prefix)
    ensures ValuesWithPrefix(m.Remove(m.keys[i]).keys, m.Remove(m.keys[i]).entries, prefix)
         == ValuesWithPrefix(m.keys[..i], m.entries, prefix)
          + ValuesWithPrefix(m.keys[i + 1..], m.entries, prefix)
  {
    var k := m.keys[i];
    var r := m.Remove(k);
    ValuesWithPrefixAround(m, i, prefix);
    WithoutAt(m.keys, k, i);
    assert r.keys == m.keys[..i] + m.keys[i + 1..];
    forall x | x in m.keys[..i] ensures x in r.entries && x in m.entries && r.entries[x] == m.entries[x] {
      assert x != k;
      assert r.Get(x) == m.Get(x);
    }
    forall x | x in m.keys[i + 1..] ensures x in r.entries && x in m.entries && r.entries[x] == m.entries[x] {
      assert x != k;
      assert r.Get(x) == m.Get(x);
    }
    ValuesWithPrefixAppend(m.keys[..i], m.keys[i + 1..], r.entries, prefix);
    ValuesWithPrefixAgree(m.keys[..i], r.entries, m.entries, prefix);
    ValuesWithPrefixAgree(m.keys[i + 1..], r.entries, m.entries, prefix);
  }

  /** `[k for k in keys if k in s]`. */
  function KeysIn(keys: seq<string>, s: set<string>): (r: seq<string>)
    ensures forall k :: k in r <==> k in keys && k in s
    decreases |keys|
  {
    if keys == [] then []
    else
      var init, last := keys[..|keys| - 1], keys[|keys| - 1];
      assert keys == init + [last];
      KeysIn(init, s) + (if last in s then [last] else [])
  }

  /** Looking at one more key of `keys` appends it when it is in `s`. */
  lemma KeysInStep(keys: seq<string>, s: set<string>, n: nat)
    requires n < |keys|
    ensures KeysIn(keys[..n + 1], s) == KeysIn(keys[..n], s) + (if keys[n] in s then [keys[n]] else [])
  {
    assert keys[..n + 1][..n] == keys[..n];
  }

  /**
   * The dictionary built by `for id, v in m.items(): if id in s: out[id] = v`
   * once the first `n` keys have been visited.
   */
  function Scan<V>(m: OrderedMap<string, V>, s: set<string>, n: nat): (r: OrderedMap<string, V>)
    requires m.Valid() && n <= |m.keys|
    ensures r.Valid()
    ensures forall k :: k in r.entries ==> k in m.entries && r.entries[k] == m.entries[k]
    ensures forall j :: n <= j < |m.keys| ==> m.keys[j] !in r.entries
    decreases n
  {
    if n == 0 then Empty()
    else
      var prev := Scan(m, s, n - 1);
      var id := m.keys[n - 1];
      assert forall j :: n <= j < |m.keys| ==> m.keys[j] != id;
      if id in s then prev.Put(id, m.entries[id]) else prev
  }

  /** That dictionary holds the visited keys that are in `s`, in visiting order. */
  lemma {:induction false} ScanKeys<V>(m: OrderedMap<string, V>, s: set<string>, n: nat)
    requires m.Valid() && n <= |m.keys|
    ensures Scan(m, s, n).keys == KeysIn(m.keys[..n], s)
    decreases n
  {
    if n > 0 {
      ScanKeys(m, s, n - 1);
      assert m.keys[n - 1] !in Scan(m, s, n - 1).entries;
      KeysInStep(m.keys, s, n - 1);
    }
  }

  /** Entries under keys outside the list play no part in the selection. */
  lemma {:induction false} ValuesWithPrefixIgnoresOthers<V>(keys: seq<string>, entries: map<string, V>, k: string, v: V, prefix: string)
    requires forall x :: x in keys ==> x in entries
    requires k !in keys
    ensures ValuesWithPrefix(keys, entries[k := v], prefix) == ValuesWithPrefix(keys, entries, prefix)
    decreases |keys|
  {
    if keys != [] {
      ValuesWithPrefixIgnoresOthers(keys[..|keys| - 1], entries, k, v, prefix);
    }
  }

  /** Inserting a new key adds its value at the end of the selection, if it matches. */
  lemma ValuesWithPrefixPutNew<V>(m: OrderedMap<string, V>, k: string, v: V, prefix: string)
    requires m.Valid() && k !in m.entries
    ensures m.Put(k, v).Valid()
    ensures ValuesWithPrefix(m.Put(k, v).keys, m.Put(k, v).entries, prefix)
         == ValuesWithPrefix(m.keys, m.entries, prefix) + (if prefix <= k then [v] else [])
  {
    var r := m.Put(k, v);
    assert r.keys == m.keys + [k];
    assert r.keys[..|r.keys| - 1] == m.keys;
    ValuesWithPrefixIgnoresOthers(m.keys, m.entries, k, v, prefix);
  }

  /** `[g for g in gs if g.get_member(u)]`. */
  function WithMember(gs: seq<QuicksightGroup>, u: string): (r: seq<QuicksightGroup>)
    reads set g | g in gs
    ensures forall i :: 0 <= i < |r| ==> r[i] in gs && u in r[i].members.entries
    ensures forall i :: 0 <= i < |gs| && u in gs[i].members.entries ==> gs[i] in r
    decreases |gs|
  {
    if gs == [] then []
    else
      var init, last := gs[..|gs| - 1], gs[|gs| - 1];
      assert gs == init + [last];
      WithMember(init, u) + (if u in last.members.entries then [last] else [])
  }

  /** Filtering one more group adds it at the end, if it has the member. */
  lemma WithMemberSnoc(gs: seq<QuicksightGroup>, g: QuicksightGroup, u: string)
    ensures WithMember(gs + [g], u) == WithMember(gs, u) + (if u in g.members.entries then [g] else [])
  {
    assert (gs + [g])[..|gs|] == gs;
  }

  /** `[g for g in gs if matches(g)]`, `matches` standing for a search filter. */
  function Matching(gs: seq<QuicksightGroup>, matches: Json -> bool): (r: seq<QuicksightGroup>)
    reads set g | g in gs
    ensures forall i :: 0 <= i < |r| ==> r[i] in gs && matches(r[i].ToJson())
    ensures forall i :: 0 <= i < |gs| && matches(gs[i].ToJson()) ==> gs[i] in r
    decreases |gs|
  {
    if gs == [] then []
    else
      var init, last := gs[..|gs| - 1], gs[|gs| - 1];
      assert gs == init + [last];
      Matching(init, matches) + (if matches(last.ToJson()) then [last] else [])
  }

  /** A data source record; the parts the service keeps verbatim are opaque documents. */
  datatype DataSource = DataSource(
    region: string, accountId: Option<string>, dataSourceId: Option<string>, name: Option<string>,
    dsType: Option<string>, dataSourceParameters: Option<Json>, credentials: Option<Json>,
    permissions: Option<Json>, vpcConnectionProperties: Option<Json>, sslProperties: Option<Json>,
    tags: Option<Json>, folderArns: Option<seq<string>>)

  /** How an f-string renders an optional string: an absent one as `None`. */
  function Render(s: Option<string>): string
  {
    s.GetOr("None")
  }

  class QuickSightBackend {
    const regionName: string
    const accountId: string
    /** The partition of `regionName`, looked up outside this model. */
    const partition: string
    var groups: OrderedMap<string, QuicksightGroup>
    var users: OrderedMap<string, QuicksightUser>
    var dataSources: OrderedMap<string, DataSource>

    /**
     * The dictionaries are well formed; each group is stored under the key of
     * its own account, namespace and name, belongs to this region, and is
     * stored once; each user object is stored once.
     */
    ghost predicate Valid()
      reads this, groups.entries.Values
    {
      MapsValid() && GroupsValid()
    }

    /** Each group's own invariant holds. */
    ghost predicate GroupsValid()
      reads this, groups.entries.Values
    {
      forall k :: k in groups.entries ==> groups.entries[k].Valid()
    }

    /** No group object is stored under two keys. */
    ghost predicate GroupsDistinct()
      reads this
    {
      forall k, k' :: k in groups.entries && k' in groups.entries && k != k' ==> groups.entries[k] != groups.entries[k']
    }

    /** The part of `Valid` that does not look inside the groups. */
    ghost predicate MapsValid()
      reads this
    {
      && groups.Valid() && users.Valid() && dataSources.Valid()
      && (forall k :: k in groups.entries ==>
            && k == CreateId(groups.entries[k].awsAccountId, groups.entries[k].namespace, groups.entries[k].groupName)
            && groups.entries[k].region == regionName
            && groups.entries[k].partition == partition)
      && GroupsDistinct()
      && (forall k, k' :: k in users.entries && k' in users.entries && k != k' ==>
            users.entries[k] != users.entries[k'])
    }

    constructor (regionName: string, accountId: string, partition: string)
      ensures Valid()
      ensures this.regionName == regionName && this.accountId == accountId && this.partition == partition
      ensures groups == Empty() && users == Empty() && dataSources == Empty()
      ensures forall a, n :: ListGroups(a, n) == [] && ListUsers(a, n) == []
    {
      this.regionName := regionName;
      this.accountId := accountId;
      this.partition := partition;
      groups := Empty();
      users := Empty();
      dataSources := Empty();
    }

    /** `create_data_set`: built for this backend's account and region, not stored. */
    function CreateDataSet(dataSetId: string, name: string): (d: DataSet)
      ensures d.arn == DataSetArn(partition, regionName, accountId, dataSetId)
      ensures d.id == dataSetId && d.name == name
    {
      NewDataSet(partition, accountId, regionName, dataSetId, name)
    }

    /** `create_ingestion`: built for this backend's account and region, not stored. */
    function CreateIngestion(dataSetId: string, ingestionId: string): (i: Ingestion)
      ensures i.arn == DataSetArn(partition, regionName, accountId, dataSetId) + "/ingestions/" + ingestionId
      ensures i.ingestionId == ingestionId
    {
      IngestionArnExtendsDataSetArn(partition, regionName, accountId, dataSetId, ingestionId);
      NewIngestion(partition, accountId, regionName, dataSetId, ingestionId)
    }

    // -------------------------------------------------------------------
    // Lookups.

    /** `describe_group`: the group stored under the key, or NotFound naming it. */
    function DescribeGroup(awsAccountId: string, namespace: string, groupName: string): (r: Result<QuicksightGroup>)
      reads this
      ensures r.Ok? <==> CreateId(awsAccountId, namespace, groupName) in groups.entries
      ensures r.Ok? ==> r.value == groups.entries[CreateId(awsAccountId, namespace, groupName)]
      ensures r.Err? ==> r.error == ResourceNotFound("Group " + groupName + " not found")
    {
      var id := CreateId(awsAccountId, namespace, groupName);
      if id !in groups.entries then Err(ResourceNotFound("Group " + groupName + " not found"))
      else Ok(groups.entries[id])
    }

    /**
     * `describe_group_membership`: NotFound for a missing group, then
     * NotFound naming the user when the group has no such member.
     */
    function DescribeGroupMembership(awsAccountId: string, namespace: string, groupName: string, userName: string): (r: Result<Membership>)
      reads this, groups.entries.Values
      requires Valid()
      ensures DescribeGroup(awsAccountId, namespace, groupName).Err? ==>
                r == Err(ResourceNotFound("Group " + groupName + " not found"))
      ensures DescribeGroup(awsAccountId, namespace, groupName).Ok? ==>
                var g := DescribeGroup(awsAccountId, namespace, groupName).value;
                && (r.Ok? <==> userName in g.members.entries)
                && (r.Ok? ==> r.value.user == userName && r.value.group == g.groupName)
                && (r.Ok? ==> r.value == g.members.entries[userName])
                && (r.Err? ==> r.error == ResourceNotFound("User " + userName + " not found"))
    {
      match DescribeGroup(awsAccountId, namespace, groupName)
      case Err(e) => Err(e)
      case Ok(group) =>
        match group.GetMember(userName)
        case None => Err(ResourceNotFound("User " + userName + " not found"))
        case Some(member) => Ok(member)
    }

    /** `describe_user`: the user stored under the key, or NotFound naming it. */
    function DescribeUser(awsAccountId: string, namespace: string, userName: string): (r: Result<QuicksightUser>)
      reads this
      ensures r.Ok? <==> CreateId(awsAccountId, namespace, userName) in users.entries
      ensures r.Ok? ==> r.value == users.entries[CreateId(awsAccountId, namespace, userName)]
      ensures r.Err? ==> r.error == ResourceNotFound("User " + userName + " not found")
    {
      var id := CreateId(awsAccountId, namespace, userName);
      if id !in users.entries then Err(ResourceNotFound("User " + userName + " not found"))
      else Ok(users.entries[id])
    }

    /** `describe_data_source`: looked up under `account::id`. */
    function DescribeDataSource(accountId: string, dataSourceId: string): (r: Result<DataSource>)
      reads this
      ensures r.Ok? <==> CreateId(accountId, "", dataSourceId) in dataSources.entries
      ensures r.Ok? ==> r.value == dataSources.entries[CreateId(accountId, "", dataSourceId)]
      ensures r.Err? ==> r.error == ResourceNotFound("DataSource '" + dataSourceId + "' not found")
    {
      var id := CreateId(accountId, "", dataSourceId);
      if id !in dataSources.entries then Err(ResourceNotFound("DataSource '" + dataSourceId + "' not found"))
      else Ok(dataSources.entries[id])
    }

    // -------------------------------------------------------------------
    // Listings (pagination is applied outside this model).

    /** `list_groups`: the groups whose key lies under `account:namespace:`, in creation order. */
    function ListGroups(awsAccountId: string, namespace: string): (r: seq<QuicksightGroup>)
      reads this
      requires groups.Valid()
      ensures forall i :: 0 <= i < |r| ==>
                exists k :: k in groups.keys && NamespacePrefix(awsAccountId, namespace) <= k && groups.entries[k] == r[i]
      ensures forall k :: k in groups.keys && NamespacePrefix(awsAccountId, namespace) <= k ==> groups.entries[k] in r
    {
      ValuesWithPrefix(groups.keys, groups.entries, NamespacePrefix(awsAccountId, namespace))
    }

    /** `list_users`: the users whose key lies under `account:namespace:`, in registration order. */
    function ListUsers(awsAccountId: string, namespace: string): (r: seq<QuicksightUser>)
      reads this
      requires users.Valid()
      ensures forall i :: 0 <= i < |r| ==>
                exists k :: k in users.keys && NamespacePrefix(awsAccountId, namespace) <= k && users.entries[k] == r[i]
      ensures forall k :: k in users.keys && NamespacePrefix(awsAccountId, namespace) <= k ==> users.entries[k] in r
    {
      ValuesWithPrefix(users.keys, users.entries, NamespacePrefix(awsAccountId, namespace))
    }

    /** `search_groups`: the listed groups that the (already validated) filter accepts. */
    function SearchGroups(awsAccountId: string, namespace: string, matches: Json -> bool): (r: seq<QuicksightGroup>)
      reads this, groups.entries.Values
      requires groups.Valid()
      ensures forall i :: 0 <= i < |r| ==> r[i] in ListGroups(awsAccountId, namespace) && matches(r[i].ToJson())
      ensures forall g :: g in ListGroups(awsAccountId, namespace) && matches(g.ToJson()) ==> g in r
    {
      var listed := ListGroups(awsAccountId, namespace);
      assert forall g :: g in listed ==> g in groups.entries.Values;
      Matching(listed, matches)
    }

    /** `list_group_memberships`: the group's members in the order they were added. */
    function ListGroupMemberships(awsAccountId: string, namespace: string, groupName: string): (r: Result<seq<Membership>>)
      reads this, groups.entries.Values
      requires Valid()
      ensures r.Err? <==> DescribeGroup(awsAccountId, namespace, groupName).Err?
      ensures r.Err? ==> r.error == ResourceNotFound("Group " + groupName + " not found")
      ensures r.Ok? ==>
                var g := DescribeGroup(awsAccountId, namespace, groupName).value;
                |r.value| == |g.members.keys|
                && forall i :: 0 <= i < |r.value| ==> r.value[i].user == g.members.keys[i] && r.value[i].group == g.groupName
    {
      match DescribeGroup(awsAccountId, namespace, groupName)
      case Err(e) => Err(e)
      case Ok(group) => Ok(group.ListMembers())
    }

    /** The keys whose group has `userName` as a member. */
    ghost function Holders(userName: string): (r: set<string>)
      reads this, groups.entries.Values
    {
      set k | k in groups.entries && userName in groups.entries[k].members.entries
    }

    /**
     * Filtering by membership first and by prefix second, as `list_user_groups`
     * does, selects what filtering by prefix first selects.
     */
    lemma {:induction false} MemberThenPrefix(keys: seq<string>, userName: string, hs: set<string>, prefix: string,
                                              sub: map<string, QuicksightGroup>)
      requires forall k :: k in keys ==> k in groups.entries
      requires forall k :: k in keys ==> (k in hs <==> userName in groups.entries[k].members.entries)
      requires forall k :: k in KeysIn(keys, hs) ==> k in sub && sub[k] == groups.entries[k]
      ensures ValuesWithPrefix(KeysIn(keys, hs), sub, prefix)
           == WithMember(ValuesWithPrefix(keys, groups.entries, prefix), userName)
      decreases |keys|
    {
      if keys != [] {
        var init, last := keys[..|keys| - 1], keys[|keys| - 1];
        assert keys == init + [last];
        MemberThenPrefix(init, userName, hs, prefix, sub);
        var g := groups.entries[last];
        var kw := KeysIn(init, hs);
        var left := ValuesWithPrefix(init, groups.entries, prefix);
        ValuesWithPrefixSnoc(init, groups.entries, prefix, last);
        if userName in g.members.entries {
          assert KeysIn(keys, hs) == kw + [last];
          ValuesWithPrefixSnoc(kw, sub, prefix, last);
          if prefix <= last {
            WithMemberSnoc(left, g, userName);
          } else {
            assert left + [] == left;
          }
        } else {
          assert KeysIn(keys, hs) == kw + [];
          assert kw + [] == kw;
          if prefix <= last {
            WithMemberSnoc(left, g, userName);
            assert WithMember(left, userName) + [] == WithMember(left, userName);
          } else {
            assert left + [] == left;
          }
        }
      }
    }

    /**
     * `list_user_groups`: scans every group of the backend for the member,
     * then keeps those under `account:namespace:`. The result is exactly
     * the namespace's groups that have the member, in creation order.
     */
    method ListUserGroups(awsAccountId: string, namespace: string, userName: string) returns (r: seq<QuicksightGroup>)
      requires Valid()
      ensures r == WithMember(ListGroups(awsAccountId, namespace), userName)
      ensures forall i :: 0 <= i < |r| ==> r[i] in ListGroups(awsAccountId, namespace) && userName in r[i].members.entries
      ensures forall g :: g in ListGroups(awsAccountId, namespace) && userName in g.members.entries ==> g in r
    {
      var idForNs := NamespacePrefix(awsAccountId, namespace);
      ghost var hs := Holders(userName);
      var groupList: OrderedMap<string, QuicksightGroup> := Empty();
      var i := 0;
      while i < |groups.keys|
        invariant 0 <= i <= |groups.keys|
        invariant groupList == Scan(groups, hs, i)
      {
        var id := groups.keys[i];
        var group := groups.entries[id];
        if group.GetMember(userName).Some? {
          groupList := groupList.Put(id, group);
        }
        i := i + 1;
      }
      ScanKeys(groups, hs, i);
      assert groups.keys[..i] == groups.keys;
      r := ValuesWithPrefix(groupList.keys, groupList.entries, idForNs);
      MemberThenPrefix(groups.keys, userName, hs, idForNs, groupList.entries);
    }

    // -------------------------------------------------------------------
    // Changes.

    /**
     * `create_group`: stores a new group with no members under its key,
     * replacing any group already there; the other keys keep their groups.
     */
    method CreateGroup(groupName: string, description: string, awsAccountId: string, namespace: string) returns (g: QuicksightGroup)
      requires Valid()
      modifies this
      ensures Valid() && fresh(g)
      ensures g.groupName == groupName && g.description == description && g.awsAccountId == awsAccountId
      ensures g.namespace == namespace && g.members == Empty()
      ensures g.arn == GroupArn(partition, regionName, awsAccountId, groupName)
      ensures groups == old(groups).Put(CreateId(awsAccountId, namespace, groupName), g)
      ensures users == old(users) && dataSources == old(dataSources)
      ensures DescribeGroup(awsAccountId, namespace, groupName) == Ok(g)
      ensures CreateId(awsAccountId, namespace, groupName) !in old(groups.entries) ==>
                forall a, n :: ListGroups(a, n) == old(ListGroups(a, n)) + (if NamespacePrefix(a, n) <= CreateId(awsAccountId, namespace, groupName) then [g] else [])
    {
      g := new QuicksightGroup(partition, regionName, groupName, description, awsAccountId, namespace);
      var id := CreateId(awsAccountId, namespace, groupName);
      ghost var before := groups;
      groups := groups.Put(id, g);
      forall k | k in groups.entries && k != id
        ensures groups.entries[k] == before.entries[k] && groups.entries[k] != g
      {
        assert before.Get(k) == groups.Get(k);
      }
      if id !in before.entries {
        forall a, n
          ensures ValuesWithPrefix(groups.keys, groups.entries, NamespacePrefix(a, n))
               == ValuesWithPrefix(before.keys, before.entries, NamespacePrefix(a, n)) + (if NamespacePrefix(a, n) <= id then [g] else [])
        {
          ValuesWithPrefixPutNew(before, id, g, NamespacePrefix(a, n));
        }
      }
    }

    /**
     * `create_group_membership`: NotFound when the group does not exist;
     * otherwise records the member (whether or not such a user is
     * registered), after which the membership can be described.
     */
    method CreateGroupMembership(awsAccountId: string, namespace: string, groupName: string, userName: string) returns (r: Result<Membership>)
      requires Valid()
      modifies groups.entries.Values
      ensures Valid()
      ensures groups == old(groups) && users == old(users) && dataSources == old(dataSources)
      ensures r.Err? <==> CreateId(awsAccountId, namespace, groupName) !in groups.entries
      ensures r.Err? ==> r.error == ResourceNotFound("Group " + groupName + " not found")
      ensures r.Ok? ==> r.value.user == userName
                        && r.value.group == groups.entries[CreateId(awsAccountId, namespace, groupName)].groupName
      ensures r.Ok? ==> DescribeGroupMembership(awsAccountId, namespace, groupName, userName) == Ok(r.value)
      ensures forall k :: k in groups.entries ==> groups.entries[k].description == old(groups.entries[k].description)
      ensures forall k :: k in groups.entries ==>
                groups.entries[k].members ==
                  if r.Ok? && k == CreateId(awsAccountId, namespace, groupName)
                  then old(groups.entries[k].members).Put(userName, r.value)
                  else old(groups.entries[k].members)
    {
      var found := DescribeGroup(awsAccountId, namespace, groupName);
      if found.Err? {
        return Err(found.error);
      }
      var group := found.value;
      var m := group.AddMember(userName);
      r := Ok(m);
    }

    /** `delete_group`: removes the key; nothing happens when it is absent. */
    method DeleteGroup(awsAccountId: string, namespace: string, groupName: string)
      requires Valid()
      modifies this
      ensures Valid()
      ensures groups == old(groups).Remove(CreateId(awsAccountId, namespace, groupName))
      ensures users == old(users) && dataSources == old(dataSources)
      ensures DescribeGroup(awsAccountId, namespace, groupName).Err?
    {
      groups := groups.Remove(CreateId(awsAccountId, namespace, groupName));
    }

    /** The loop of `delete_user`: `delete_member` on every group of the backend. */
    method RemoveMemberEverywhere(userName: string)
      requires groups.Valid() && GroupsDistinct() && GroupsValid()
      modifies groups.entries.Values
      ensures GroupsValid()
      ensures forall k :: k in groups.entries ==>
                groups.entries[k].members == old(groups.entries[k].members).Remove(userName)
                && groups.entries[k].description == old(groups.entries[k].description)
    {
      var gs := groups.Values();
      forall a, b | 0 <= a < b < |gs| ensures gs[a] != gs[b] {
        assert groups.keys[a] != groups.keys[b];
      }
      DeleteMemberFromAll(gs, userName);
      forall k | k in groups.entries
        ensures groups.entries[k].Valid()
        ensures groups.entries[k].members == old(groups.entries[k].members).Remove(userName)
        ensures groups.entries[k].description == old(groups.entries[k].description)
      {
        var j :| 0 <= j < |groups.keys| && groups.keys[j] == k;
        assert gs[j] == groups.entries[k];
      }
    }

    /**
     * `delete_user`: strips the member from every group of the backend,
     * whatever its account or namespace, then removes the user; deleting a
     * missing user is not an error.
     */
    method DeleteUser(awsAccountId: string, namespace: string, userName: string)
      requires Valid()
      modifies this, groups.entries.Values
      ensures Valid()
      ensures groups == old(groups) && dataSources == old(dataSources)
      ensures users == old(users).Remove(CreateId(awsAccountId, namespace, userName))
      ensures forall k :: k in groups.entries ==>
                groups.entries[k].members == old(groups.entries[k].members).Remove(userName)
                && groups.entries[k].description == old(groups.entries[k].description)
      ensures forall k :: k in groups.entries ==> userName !in groups.entries[k].members.entries
    {
      RemoveMemberEverywhere(userName);
      users := users.Remove(CreateId(awsAccountId, namespace, userName));
    }

    /**
     * `register_user`: stores a new, inactive user under its key, replacing
     * any user already there. `principalId` is the random id the service draws.
     */
    method RegisterUser(identityType: string, email: string, userRole: string, awsAccountId: string,
                        namespace: string, userName: string, principalId: string) returns (user: QuicksightUser)
      requires Valid()
      modifies this
      ensures Valid() && fresh(user)
      ensures user.arn == UserArn(partition, regionName, awsAccountId, userName)
      ensures user.email == email && user.identityType == identityType && user.userRole == userRole
      ensures user.username == userName && user.principalId == principalId && !user.active
      ensures users == old(users).Put(CreateId(awsAccountId, namespace, userName), user)
      ensures groups == old(groups) && dataSources == old(dataSources)
      ensures DescribeUser(awsAccountId, namespace, userName) == Ok(user)
      ensures CreateId(awsAccountId, namespace, userName) !in old(users.entries) ==>
                forall a, n :: ListUsers(a, n) == old(ListUsers(a, n)) + (if NamespacePrefix(a, n) <= CreateId(awsAccountId, namespace, userName) then [user] else [])
    {
      user := new QuicksightUser(partition, awsAccountId, regionName, email, identityType, userName, userRole, principalId);
      var id := CreateId(awsAccountId, namespace, userName);
      ghost var before := users;
      users := users.Put(id, user);
      if id !in before.entries {
        forall a, n
          ensures ValuesWithPrefix(users.keys, users.entries, NamespacePrefix(a, n))
               == ValuesWithPrefix(before.keys, before.entries, NamespacePrefix(a, n)) + (if NamespacePrefix(a, n) <= id then [user] else [])
        {
          ValuesWithPrefixPutNew(before, id, user, NamespacePrefix(a, n));
        }
      }
    }

    /** `update_user`: sets email and role of an existing user; NotFound otherwise. */
    method UpdateUser(awsAccountId: string, namespace: string, userName: string, email: string, userRole: string)
      returns (r: Result<QuicksightUser>)
      requires Valid()
      modifies users.entries.Values
      ensures Valid()
      ensures groups == old(groups) && users == old(users) && dataSources == old(dataSources)
      ensures r.Err? <==> CreateId(awsAccountId, namespace, userName) !in users.entries
      ensures r.Err? ==> r.error == ResourceNotFound("User " + userName + " not found")
      ensures r.Ok? ==> r.value == users.entries[CreateId(awsAccountId, namespace, userName)]
                        && r.value.email == email && r.value.userRole == userRole
      ensures forall k :: k in users.entries && (r.Err? || k != CreateId(awsAccountId, namespace, userName)) ==>
                users.entries[k].email == old(users.entries[k].email)
                && users.entries[k].userRole == old(users.entries[k].userRole)
    {
      r := DescribeUser(awsAccountId, namespace, userName);
      if r.Ok? {
        var user := r.value;
        user.email := email;
        user.userRole := userRole;
      }
    }

    /** `update_group`: sets the description of an existing group; NotFound otherwise. */
    method UpdateGroup(awsAccountId: string, namespace: string, groupName: string, description: string)
      returns (r: Result<QuicksightGroup>)
      requires Valid()
      modifies groups.entries.Values
      ensures Valid()
      ensures groups == old(groups) && users == old(users) && dataSources == old(dataSources)
      ensures r.Err? <==> CreateId(awsAccountId, namespace, groupName) !in groups.entries
      ensures r.Err? ==> r.error == ResourceNotFound("Group " + groupName + " not found")
      ensures r.Ok? ==> r.value == groups.entries[CreateId(awsAccountId, namespace, groupName)] && r.value.description == description
      ensures forall k :: k in groups.entries ==> groups.entries[k].members == old(groups.entries[k].members)
      ensures forall k :: k in groups.entries && (r.Err? || k != CreateId(awsAccountId, namespace, groupName)) ==>
                groups.entries[k].description == old(groups.entries[k].description)
    {
      r := DescribeGroup(awsAccountId, namespace, groupName);
      if r.Ok? {
        var group := r.value;
        group.description := description;
      }
    }

    /**
     * `create_data_source`: stores the record under `account::id`, an absent
     * account or id rendered as `None`, replacing any record already there.
     */
    method CreateDataSource(dataSourceId: Option<string>, name: Option<string>, accountId: Option<string>,
                            dsType: Option<string>, dataSourceParameters: Option<Json>, credentials: Option<Json>,
                            permissions: Option<Json>, vpcConnectionProperties: Option<Json>,
                            sslProperties: Option<Json>, tags: Option<Json>, folderArns: Option<seq<string>>)
      returns (ds: DataSource)
      requires Valid()
      modifies this
      ensures Valid()
      ensures ds == DataSource(regionName, accountId, dataSourceId, name, dsType, dataSourceParameters, credentials,
                               permissions, vpcConnectionProperties, sslProperties, tags, folderArns)
      ensures dataSources == old(dataSources).Put(CreateId(Render(accountId), "", Render(dataSourceId)), ds)
      ensures groups == old(groups) && users == old(users)
      ensures DescribeDataSource(Render(accountId), Render(dataSourceId)) == Ok(ds)
    {
      ds := DataSource(regionName, accountId, dataSourceId, name, dsType, dataSourceParameters, credentials,
                       permissions, vpcConnectionProperties, sslProperties, tags, folderArns);
      dataSources := dataSources.Put(CreateId(Render(accountId), "", Render(dataSourceId)), ds);
    }
  }
}
