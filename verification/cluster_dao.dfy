/** ClusterDao: validating, storing, parsing, caching and deleting the
    clusters Reaper manages. */
module ClusterDao {
  import opened Types
  import opened Keyspace

  /** Cluster.DEFAULT_JMX_PORT (Cluster.java is not part of this model; 7199 is
      Cassandra's JMX port). */
  const DefaultJmxPort: int := 7199

  /** LocalDate.MIN as an epoch day: the last contact of a cluster never contacted. */
  const LocalDateMin: int := -365243219162

  /** How long, in milliseconds, the cluster list is served from the cache. */
  const CacheMillis: int := 10000

  /** ClusterProperties: the JMX port and optional JMX credentials. */
  datatype ClusterProperties = ClusterProperties(jmxPort: int, jmxCredentials: Option<string>)

  /** A cluster; `lastContact` is a day (an epoch day). */
  datatype Cluster = Cluster(
    name: string,
    partitioner: Option<string>,
    seedHosts: set<Host>,
    properties: ClusterProperties,
    state: ClusterState,
    lastContact: int)

  /** The `cluster` row that addCluster writes, given the JSON text of the
      properties. */
  function RowOf(cluster: Cluster, json: string): (row: ClusterRow)
    requires cluster.partitioner.Some?
    ensures row.partitioner.Some? && row.properties.Some? && row.state.Some? && row.lastContact.Some?
    ensures row.seedHosts == cluster.seedHosts && row.properties == Some(json)
  {
    ClusterRow(cluster.partitioner, cluster.seedHosts, Some(json), Some(cluster.state), Some(cluster.lastContact))
  }

  /** The rows (schedules, event subscriptions, repair units) that do not
      belong to cluster `name`. */
  function RowsNotOf(rows: map<Uuid, string>, name: string): (m: map<Uuid, string>)
    ensures forall id :: id in m <==> id in rows && rows[id] != name
    ensures forall id :: id in m ==> m[id] == rows[id]
  {
    map id | id in rows && rows[id] != name :: rows[id]
  }

  class ClusterDao {
    /** The session: the keyspace every instance shares. */
    const store: Keyspace
    /** ObjectMapper.readValue for ClusterProperties; None when it throws IOException. */
    const readProperties: string -> Option<ClusterProperties>
    /** ObjectMapper.writeValueAsString for ClusterProperties; None when it throws. */
    const writeProperties: ClusterProperties -> Option<string>
    /** Whether the JVM runs with `-ea`. */
    const assertionsEnabled: bool
    /** clustersCache: the last list read from the `cluster` table. */
    var clustersCache: seq<Cluster>
    /** clustersCacheAge: the time, in milliseconds, of the last refresh. */
    var clustersCacheAge: int

    constructor (store: Keyspace, readProperties: string -> Option<ClusterProperties>,
                 writeProperties: ClusterProperties -> Option<string>, assertionsEnabled: bool)
      ensures this.store == store && this.readProperties == readProperties
      ensures this.writeProperties == writeProperties && this.assertionsEnabled == assertionsEnabled
      ensures clustersCache == [] && clustersCacheAge == 0
    {
      this.store := store;
      this.readProperties := readProperties;
      this.writeProperties := writeProperties;
      this.assertionsEnabled := assertionsEnabled;
      clustersCache := [];
      clustersCacheAge := 0;
    }

    /** parseCluster: None when the properties JSON does not parse; null
        columns take their defaults. */
    function ParseCluster(name: string, row: ClusterRow): (c: Option<Cluster>)
      ensures c.None? <==> row.properties.Some? && readProperties(row.properties.value).None?
      ensures c.Some? ==> c.value.name == name && c.value.seedHosts == row.seedHosts
      ensures c.Some? && row.properties.None? ==> c.value.properties == ClusterProperties(DefaultJmxPort, None)
      ensures c.Some? && row.lastContact.None? ==> c.value.lastContact == LocalDateMin
      ensures c.Some? && row.state.None? ==> c.value.state == Unreachable
      ensures c.Some? ==> c.value.partitioner == row.partitioner
      ensures c.Some? && row.properties.Some? ==> Some(c.value.properties) == readProperties(row.properties.value)
      ensures c.Some? && row.lastContact.Some? ==> c.value.lastContact == row.lastContact.value
      ensures c.Some? && row.state.Some? ==> c.value.state == row.state.value
    {
      var properties :=
        if row.properties.Some? then readProperties(row.properties.value)
        else Some(ClusterProperties(DefaultJmxPort, None));
      if properties.None? then None
      else
        Some(Cluster(
          name,
          row.partitioner,
          row.seedHosts,
          properties.value,
          if row.state.Some? then row.state.value else Unreachable,
          if row.lastContact.Some? then row.lastContact.value else LocalDateMin))
    }

    /** Parsing a row that addCluster wrote gives the cluster back, provided the
        properties survive their JSON round trip. */
    lemma WriteThenParse(cluster: Cluster, json: string)
      requires cluster.partitioner.Some?
      requires readProperties(json) == Some(cluster.properties)
      ensures ParseCluster(cluster.name, RowOf(cluster, json)) == Some(cluster)
    {
    }

    /** getCluster: IllegalArgumentException when no row has that name,
        IllegalStateException when the row does not parse. */
    function GetCluster(name: string): (r: Result<Cluster>)
      reads store`cluster
      ensures r.Failure? <==> name !in store.cluster || ParseCluster(name, store.cluster[name]).None?
      ensures name !in store.cluster ==> r == Failure(IllegalArgument)
      ensures name in store.cluster && r.Failure? ==> r.error == IllegalState
      ensures r.Success? ==> r.value.name == name && Some(r.value) == ParseCluster(name, store.cluster[name])
    {
      if name in store.cluster then
        match ParseCluster(name, store.cluster[name])
        case Some(c) => Success(c)
        case None => Failure(IllegalState)
      else Failure(IllegalArgument)
    }

    /** addClusterAssertions: the cluster must have a known state and a
        partitioner, and must share a seed host with the stored cluster of the
        same name; with no stored cluster its own seeds stand in, so an empty
        seed set is refused. Only the "no such cluster" exception is caught. */
    function AddClusterAssertions(cluster: Cluster): (r: Result<bool>)
      reads store`cluster
      ensures r.Success? ==> r.value
      ensures r.Success? <==>
        && cluster.state != Unknown
        && cluster.partitioner.Some?
        && (cluster.name !in store.cluster ==> cluster.seedHosts != {})
        && (cluster.name in store.cluster ==>
              GetCluster(cluster.name).Success? && !(GetCluster(cluster.name).value.seedHosts !! cluster.seedHosts))
      ensures cluster.state == Unknown || cluster.partitioner.None? ==> r == Failure(IllegalState)
    {
      if cluster.state == Unknown then Failure(IllegalState)
      else if cluster.partitioner.None? then Failure(IllegalState)
      else
        var previous :=
          match GetCluster(cluster.name)
          case Success(c) => Success(c.seedHosts)
          case Failure(e) => if e == IllegalArgument then Success(cluster.seedHosts) else Failure(e);
        if previous.Failure? then Failure(previous.error)
        else if previous.value !! cluster.seedHosts then Failure(IllegalArgument)
        else Success(true)
    }

    /** A stored cluster may be replaced only by one that keeps at least one of
        its seed hosts. */
    lemma ReplacementKeepsASeed(cluster: Cluster)
      requires AddClusterAssertions(cluster).Success?
      requires cluster.name in store.cluster
      ensures exists h :: h in store.cluster[cluster.name].seedHosts && h in cluster.seedHosts
    {
    }

    /** addCluster: validates when assertions are enabled, then writes the row
        (Optional.get on the partitioner, JSON for the properties) and returns
        true. */
    method AddCluster(cluster: Cluster) returns (r: Result<bool>)
      modifies store`cluster
      ensures assertionsEnabled && old(AddClusterAssertions(cluster)).Failure? ==>
        r == Failure(old(AddClusterAssertions(cluster)).error)
      ensures (!assertionsEnabled || old(AddClusterAssertions(cluster)).Success?) ==>
        && (cluster.partitioner.None? ==> r == Failure(NoSuchElement))
        && (cluster.partitioner.Some? && writeProperties(cluster.properties).None? ==> r == Failure(IllegalState))
        && (cluster.partitioner.Some? && writeProperties(cluster.properties).Some? ==> r == Success(true))
      ensures r.Success? ==> r.value && cluster.partitioner.Some? && writeProperties(cluster.properties).Some?
      ensures r.Success? ==>
        store.cluster == old(store.cluster)[cluster.name := RowOf(cluster, writeProperties(cluster.properties).value)]
      ensures r.Failure? ==> store.cluster == old(store.cluster)
      ensures r.Success? && readProperties(writeProperties(cluster.properties).value) == Some(cluster.properties) ==>
        GetCluster(cluster.name) == Success(cluster)
    {
      if assertionsEnabled {
        var valid := AddClusterAssertions(cluster);
        if valid.Failure? {
          return Failure(valid.error);
        }
      }
      if cluster.partitioner.None? {
        return Failure(NoSuchElement);
      }
      var json := writeProperties(cluster.properties);
      if json.None? {
        return Failure(IllegalState);
      }
      store.cluster := store.cluster[cluster.name := RowOf(cluster, json.value)];
      if readProperties(json.value) == Some(cluster.properties) {
        WriteThenParse(cluster, json.value);
      }
      return Success(true);
    }

    /** updateCluster is addCluster. */
    method UpdateCluster(newCluster: Cluster) returns (r: Result<bool>)
      modifies store`cluster
      ensures assertionsEnabled && old(AddClusterAssertions(newCluster)).Failure? ==>
        r == Failure(old(AddClusterAssertions(newCluster)).error)
      ensures (!assertionsEnabled || old(AddClusterAssertions(newCluster)).Success?) ==>
        && (newCluster.partitioner.None? ==> r == Failure(NoSuchElement))
        && (newCluster.partitioner.Some? && writeProperties(newCluster.properties).None? ==> r == Failure(IllegalState))
        && (newCluster.partitioner.Some? && writeProperties(newCluster.properties).Some? ==> r == Success(true))
      ensures r.Success? ==> r.value && newCluster.partitioner.Some? && writeProperties(newCluster.properties).Some?
      ensures r.Success? ==>
        store.cluster == old(store.cluster)[newCluster.name := RowOf(newCluster, writeProperties(newCluster.properties).value)]
      ensures r.Failure? ==> store.cluster == old(store.cluster)
      ensures r.Success? && readProperties(writeProperties(newCluster.properties).value) == Some(newCluster.properties) ==>
        GetCluster(newCluster.name) == Success(newCluster)
    {
      r := AddCluster(newCluster);
    }

    /** The clusters of all rows that parse. */
    function ParsedClusters(rows: map<string, ClusterRow>, names: set<string>): set<Cluster>
    {
      set name | name in names && name in rows && ParseCluster(name, rows[name]).Some?
        :: ParseCluster(name, rows[name]).value
    }

    lemma ParsedClustersAdd(rows: map<string, ClusterRow>, names: set<string>, name: string)
      requires name in rows && name !in names
      ensures ParseCluster(name, rows[name]).Some? ==>
        && ParseCluster(name, rows[name]).value !in ParsedClusters(rows, names)
        && ParsedClusters(rows, names + {name}) == ParsedClusters(rows, names) + {ParseCluster(name, rows[name]).value}
      ensures ParseCluster(name, rows[name]).None? ==> ParsedClusters(rows, names + {name}) == ParsedClusters(rows, names)
    {
    }

    /** getClusters: refreshes the cache from the `cluster` table when it is more
        than ten seconds old, skipping rows that do not parse, and returns the
        cache. */
    method GetClusters(nowMillis: int) returns (clusters: seq<Cluster>)
      modifies this`clustersCache, this`clustersCacheAge
      ensures clusters == clustersCache
      ensures old(nowMillis - clustersCacheAge > CacheMillis) ==>
        && clustersCacheAge == nowMillis
        && multiset(clusters) == multiset(ParsedClusters(store.cluster, store.cluster.Keys))
      ensures old(nowMillis - clustersCacheAge <= CacheMillis) ==>
        clustersCache == old(clustersCache) && clustersCacheAge == old(clustersCacheAge)
    {
      if nowMillis - clustersCacheAge > CacheMillis {
        clustersCacheAge := nowMillis;
        var rows := store.cluster;
        var parsed: seq<Cluster> := [];
        var todo := rows.Keys;
        while todo != {}
          invariant todo <= rows.Keys
          invariant multiset(parsed) == multiset(ParsedClusters(rows, rows.Keys - todo))
          invariant clustersCacheAge == nowMillis
          decreases todo
        {
          var name :| name in todo;
          ParsedClustersAdd(rows, rows.Keys - todo, name);
          assert rows.Keys - (todo - {name}) == (rows.Keys - todo) + {name};
          var c := ParseCluster(name, rows[name]);
          if c.Some? {
            parsed := parsed + [c.value];
          }
          todo := todo - {name};
        }
        clustersCache := parsed;
      }
      clusters := clustersCache;
    }

    /** deleteCluster: deletes the cluster's schedules, its runs-by-cluster
        entry, its event subscriptions and the repair units whose cluster_name
        is `name`; then reads the cluster (failing if it is missing, after the
        cascade) and deletes its row. */
    method DeleteCluster(name: string) returns (r: Result<Cluster>)
      modifies store`repairSchedules, store`repairRunsByCluster, store`eventSubscriptions, store`repairUnits, store`cluster
      ensures store.repairSchedules == RowsNotOf(old(store.repairSchedules), name)
      ensures store.repairRunsByCluster == old(store.repairRunsByCluster) - {name}
      ensures store.eventSubscriptions == RowsNotOf(old(store.eventSubscriptions), name)
      ensures store.repairUnits == RowsNotOf(old(store.repairUnits), name)
      ensures r == old(GetCluster(name))
      ensures r.Success? ==> store.cluster == old(store.cluster) - {name}
      ensures r.Failure? ==> store.cluster == old(store.cluster)
    {
      store.repairSchedules := RowsNotOf(store.repairSchedules, name);
      store.repairRunsByCluster := store.repairRunsByCluster - {name};
      store.eventSubscriptions := RowsNotOf(store.eventSubscriptions, name);

      var units := store.repairUnits;
      var todo := units.Keys;
      while todo != {}
        invariant todo <= units.Keys
        invariant store.repairUnits.Keys <= units.Keys
        invariant forall id :: id in store.repairUnits ==> store.repairUnits[id] == units[id]
        invariant forall id :: id in units ==> (id in store.repairUnits <==> id in todo || units[id] != name)
        invariant store.cluster == old(store.cluster)
        invariant store.repairSchedules == RowsNotOf(old(store.repairSchedules), name)
        invariant store.repairRunsByCluster == old(store.repairRunsByCluster) - {name}
        invariant store.eventSubscriptions == RowsNotOf(old(store.eventSubscriptions), name)
        decreases todo
      {
        var id :| id in todo;
        if units[id] == name {
          store.repairUnits := store.repairUnits - {id};
        }
        todo := todo - {id};
      }
      assert store.repairUnits == RowsNotOf(units, name);

      r := GetCluster(name);
      if r.Success? {
        store.cluster := store.cluster - {name};
      }
    }
  }
}
