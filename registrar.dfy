/**
 * DynamicRepositoryBeanDefinitionRegistrarSupport: finds the `*.orm.properties`
 * resources, derives a persistence-unit name from each filename, and for the
 * first resource of every unit registers a data source, a vendor adapter, an
 * entity manager factory, a transaction manager and an ORM registration.
 */
module Registrar {
  import opened Wrappers
  import opened JavaStrings
  import opened PropertyMaps
  import opened RepositoryConfiguration
  import opened Beans

  const FILENAME_SUFFIX: string := ".orm.properties"
  const MASK: string := "********"
  const ENTITY_MANAGER_FACTORY_REF: string := "entityManagerFactoryRef"
  const TRANSACTION_MANAGER_REF: string := "transactionManagerRef"

  // ---------------------------------------------------------------------------
  // Resources

  /** What reading a resource as a properties file gives: its entries, or an I/O failure. */
  datatype PropertiesFile = Readable(entries: map<string, string>) | Unreadable

  datatype Resource = Resource(filename: string, file: PropertiesFile)

  /** The classpath scan: the resources in the order found, or a failed scan. */
  datatype ScanResult = Found(resources: seq<Resource>) | ScanFailed

  /** Every filename is long enough to lose the suffix (the scan pattern ends in it). */
  predicate Named(resources: seq<Resource>)
  {
    forall i :: 0 <= i < |resources| ==> |resources[i].filename| >= |FILENAME_SUFFIX|
  }

  // ---------------------------------------------------------------------------
  // Unit names

  /**
   * `unitNameFromFilename`: the filename without its last 15 characters,
   * lower-cased. Nothing checks that those characters are the suffix.
   */
  function UnitNameFromFilename(filename: string): (unit: string)
    requires |filename| >= |FILENAME_SUFFIX|
    ensures |unit| == |filename| - |FILENAME_SUFFIX|
  {
    ToLowerAscii(filename[..|filename| - |FILENAME_SUFFIX|])
  }

  /**
   * The unit name is the filename minus its last 15 characters, each
   * lower-cased: so it holds no capital letter.
   */
  lemma UnitNameLowered(filename: string)
    requires |filename| >= |FILENAME_SUFFIX|
    ensures |UnitNameFromFilename(filename)| == |filename| - |FILENAME_SUFFIX|
    ensures forall i :: 0 <= i < |UnitNameFromFilename(filename)| ==>
      UnitNameFromFilename(filename)[i] == LowerChar(filename[i])
    ensures NoAsciiUpper(UnitNameFromFilename(filename))
  {
  }

  /** A lower-case unit name is recovered from its own properties filename. */
  lemma UnitNameRoundTrip(unit: string)
    requires NoAsciiUpper(unit)
    ensures UnitNameFromFilename(unit + FILENAME_SUFFIX) == unit
  {
    assert (unit + FILENAME_SUFFIX)[..|unit|] == unit;
    LowerOfLower(unit);
  }

  /** Deriving a unit name is idempotent through the filename convention. */
  lemma RederivedUnitName(filename: string)
    requires |filename| >= |FILENAME_SUFFIX|
    ensures UnitNameFromFilename(UnitNameFromFilename(filename) + FILENAME_SUFFIX)
         == UnitNameFromFilename(filename)
  {
    UnitNameRoundTrip(UnitNameFromFilename(filename));
  }

  function UnitNames(resources: seq<Resource>): (names: seq<string>)
    requires Named(resources)
    ensures |names| == |resources|
    ensures forall i :: 0 <= i < |resources| ==> names[i] == UnitNameFromFilename(resources[i].filename)
  {
    if |resources| == 0 then []
    else
      var n := |resources| - 1;
      UnitNames(resources[..n]) + [UnitNameFromFilename(resources[n].filename)]
  }

  // ---------------------------------------------------------------------------
  // Which resources are built

  /**
   * The positions whose name has not occurred before: the resources the
   * discovery loop hands to the build step.
   */
  function FirstIndices(names: seq<string>): (firsts: seq<nat>)
    ensures forall k :: 0 <= k < |firsts| ==> firsts[k] < |names|
  {
    if |names| == 0 then []
    else
      var n := |names| - 1;
      FirstIndices(names[..n]) + (if names[n] in names[..n] then [] else [n])
  }

  /** A position is built exactly when its name is new there. */
  lemma {:induction false} FirstIndicesAreFirstOccurrences(names: seq<string>)
    ensures forall i: int :: i in FirstIndices(names) <==> 0 <= i < |names| && names[i] !in names[..i]
  {
    if |names| > 0 {
      var n := |names| - 1;
      var front := names[..n];
      var frontFirsts := FirstIndices(front);
      FirstIndicesAreFirstOccurrences(front);
      var last: seq<nat> := if names[n] in front then [] else [n];
      assert FirstIndices(names) == frontFirsts + last;
      forall i: int ensures i in frontFirsts + last <==> 0 <= i < |names| && names[i] !in names[..i] {
        if 0 <= i < n {
          assert front[..i] == names[..i];
          assert i !in last;
        } else if i == n {
          assert i !in frontFirsts;
        } else {
          assert i !in frontFirsts && i !in last;
        }
      }
    }
  }

  /** The builds happen in resource order. */
  lemma {:induction false} FirstIndicesIncrease(names: seq<string>)
    ensures forall a, b :: 0 <= a < b < |FirstIndices(names)| ==>
      FirstIndices(names)[a] < FirstIndices(names)[b]
  {
    if |names| > 0 {
      FirstIndicesIncrease(names[..|names| - 1]);
    }
  }

  /** No two builds are tried for the same name. */
  lemma NoNameBuiltTwice(names: seq<string>)
    ensures var firsts := FirstIndices(names);
      forall a, b :: 0 <= a < b < |firsts| ==> names[firsts[a]] != names[firsts[b]]
  {
    var firsts := FirstIndices(names);
    FirstIndicesAreFirstOccurrences(names);
    FirstIndicesIncrease(names);
    forall a, b | 0 <= a < b < |firsts| ensures names[firsts[a]] != names[firsts[b]] {
      var i, j := firsts[a], firsts[b];
      assert j in firsts;
      assert i < j && names[i] == names[..j][i];
    }
  }

  /** Position `i`'s name was built at or before `i`. */
  predicate BuiltBy(names: seq<string>, i: nat)
  {
    exists f: nat :: f in FirstIndices(names) && f <= i && i < |names| && names[f] == names[i]
  }

  /** Every name is built at or before each position that holds it. */
  lemma EveryNameBuilt(names: seq<string>)
    ensures forall i: nat :: i < |names| ==> BuiltBy(names, i)
  {
    FirstIndicesAreFirstOccurrences(names);
    forall i: nat | i < |names| ensures BuiltBy(names, i) {
      var f := EarliestOccurrence(names, i);
      assert f in FirstIndices(names);
    }
  }

  /** The first position that holds the same name as position `i`. */
  lemma EarliestOccurrence(names: seq<string>, i: nat) returns (f: nat)
    requires i < |names|
    ensures f <= i && names[f] == names[i] && names[f] !in names[..f]
    decreases i
  {
    if names[i] in names[..i] {
      var j :| 0 <= j < i && names[j] == names[i];
      f := EarliestOccurrence(names, j);
    } else {
      f := i;
    }
  }

  /**
   * A name is claimed before its build is tried: a later resource with the
   * same name is skipped whether or not the first one could be read.
   */
  lemma LaterDuplicateSkipped(names: seq<string>, i: nat, j: nat)
    requires i < j < |names| && names[i] == names[j]
    ensures j !in FirstIndices(names)
  {
    FirstIndicesAreFirstOccurrences(names);
    assert names[i] == names[..j][i];
  }

  // ---------------------------------------------------------------------------
  // What one unit registers

  /** The c3p0 pool: the four datasource keys as they are, and a pool of 0 to 20 connections. */
  function PoolFor(properties: map<string, string>): PoolSettings
  {
    PoolSettings(
      Lookup(properties, DRIVER_CLASS_NAME),
      Lookup(properties, URL),
      Lookup(properties, USERNAME),
      Lookup(properties, PASSWORD),
      "0",
      "20")
  }

  /**
   * The pool takes each of the four datasource settings from its key, null
   * when the key is absent, and nothing from any other key.
   */
  lemma PoolFromDatasourceKeys(properties: map<string, string>, key: string, value: string)
    ensures var pool := PoolFor(properties);
      && (pool.driverClass.Some? <==> DRIVER_CLASS_NAME in properties)
      && (pool.jdbcUrl.Some? <==> URL in properties)
      && (pool.user.Some? <==> USERNAME in properties)
      && (pool.password.Some? <==> PASSWORD in properties)
      && (pool.driverClass.Some? ==> pool.driverClass.value == properties[DRIVER_CLASS_NAME])
      && (pool.jdbcUrl.Some? ==> pool.jdbcUrl.value == properties[URL])
      && (pool.user.Some? ==> pool.user.value == properties[USERNAME])
      && (pool.password.Some? ==> pool.password.value == properties[PASSWORD])
      && pool.minPoolSize == "0" && pool.maxPoolSize == "20"
    ensures key !in {DRIVER_CLASS_NAME, URL, USERNAME, PASSWORD} ==>
      PoolFor(properties[key := value]) == PoolFor(properties)
  {
  }

  /** The roles of a unit's beans, in the order they are registered. */
  const RegistrationOrder: seq<BeanRole> :=
    [DataSource, VendorAdapter, EntityManagerFactory, TransactionManager, OrmRegistration]

  /** The five definitions a unit registers when its properties load. */
  function UnitDefinitions(unit: string, properties: map<string, string>): (definitions: seq<BeanDefinition>)
    ensures |definitions| == |RegistrationOrder|
  {
    var dataSourceName := BeanName(unit, DataSource);
    var entityManagerFactoryName := BeanName(unit, EntityManagerFactory);
    var transactionManagerName := BeanName(unit, TransactionManager);
    [ BeanDefinition(dataSourceName, PooledDataSource(PoolFor(properties))),
      BeanDefinition(entityManagerFactoryName + "VendorAdapter", JpaVendorAdapter),
      BeanDefinition(entityManagerFactoryName,
        EntityManagerFactoryBean(entityManagerFactoryName + "VendorAdapter", dataSourceName, unit,
                                 BasePackages(properties))),
      BeanDefinition(transactionManagerName, JpaTransactionManager(entityManagerFactoryName)),
      BeanDefinition(BeanName(unit, OrmRegistration),
        OrmRegistrationBean(dataSourceName, entityManagerFactoryName, transactionManagerName)) ]
  }

  /** The k-th definition of a unit is named after the unit and the k-th role. */
  lemma UnitDefinitionsNamed(unit: string, properties: map<string, string>)
    ensures forall k :: 0 <= k < |RegistrationOrder| ==>
      UnitDefinitions(unit, properties)[k].name == BeanName(unit, RegistrationOrder[k])
  {
    assert BeanName(unit, EntityManagerFactory) + "VendorAdapter" == BeanName(unit, VendorAdapter);
  }

  /**
   * The unit's beans are wired among themselves: every reference one of them
   * holds names another of them.
   */
  lemma UnitDefinitionsWired(unit: string, properties: map<string, string>)
    ensures var definitions := UnitDefinitions(unit, properties);
      forall d, r :: d in definitions && r in References(d.kind) ==>
        exists e :: e in definitions && e.name == r
  {
    var definitions := UnitDefinitions(unit, properties);
    forall d, r | d in definitions && r in References(d.kind)
      ensures exists e :: e in definitions && e.name == r
    {
      var k :| 0 <= k < |definitions| && definitions[k] == d;
      var j := if k == 2 && r == References(d.kind)[0] then 1
               else if k == 2 || (k == 4 && r == References(d.kind)[0]) then 0
               else if k == 3 || (k == 4 && r == References(d.kind)[1]) then 2
               else 3;
      assert definitions[j] in definitions && definitions[j].name == r;
    }
  }

  /** What building a unit from a resource registers: nothing when the file cannot be read. */
  function Built(unit: string, file: PropertiesFile): (definitions: seq<BeanDefinition>)
    ensures |definitions| == if file.Readable? then |RegistrationOrder| else 0
  {
    match file
    case Readable(entries) => UnitDefinitions(unit, entries)
    case Unreadable => []
  }

  /**
   * The unit's properties after the build has exported its entity manager
   * factory and transaction manager names.
   */
  function Exported(unit: string, properties: map<string, string>): (exported: map<string, string>)
    ensures exported.Keys == properties.Keys + {ENTITY_MANAGER_FACTORY_REF, TRANSACTION_MANAGER_REF}
    ensures exported[ENTITY_MANAGER_FACTORY_REF] == BeanName(unit, EntityManagerFactory)
    ensures exported[TRANSACTION_MANAGER_REF] == BeanName(unit, TransactionManager)
    ensures forall k :: k in properties && k != ENTITY_MANAGER_FACTORY_REF && k != TRANSACTION_MANAGER_REF ==>
      exported[k] == properties[k]
  {
    properties[ENTITY_MANAGER_FACTORY_REF := BeanName(unit, EntityManagerFactory)]
              [TRANSACTION_MANAGER_REF := BeanName(unit, TransactionManager)]
  }

  /** Exporting the two references changes neither the pool nor the packages to scan. */
  lemma ExportKeepsPoolAndPackages(unit: string, properties: map<string, string>)
    ensures PoolFor(Exported(unit, properties)) == PoolFor(properties)
    ensures BasePackages(Exported(unit, properties)) == BasePackages(properties)
  {
    var exported := Exported(unit, properties);
    assert BASE_PACKAGES != ENTITY_MANAGER_FACTORY_REF && BASE_PACKAGES != TRANSACTION_MANAGER_REF;
    assert Lookup(exported, BASE_PACKAGES) == Lookup(properties, BASE_PACKAGES);
  }

  // ---------------------------------------------------------------------------
  // The discovery run, over unit names and what each build would register

  /** Position `k` holds the first occurrence of its name. */
  predicate FirstAt(names: seq<string>, k: int)
  {
    0 <= k < |names| && names[k] !in names[..k]
  }

  /**
   * What the discovery loop registers: the build of each position is kept
   * only where its name occurs for the first time.
   */
  function Discovered(names: seq<string>, builds: seq<seq<BeanDefinition>>): seq<BeanDefinition>
    requires |names| == |builds|
  {
    if |names| == 0 then []
    else
      var n := |names| - 1;
      Discovered(names[..n], builds[..n]) + (if names[n] in names[..n] then [] else builds[n])
  }

  /** Each build holds beans of its own unit, one per role in registration order. */
  predicate Labelled(names: seq<string>, builds: seq<seq<BeanDefinition>>)
    requires |names| == |builds|
  {
    forall k :: 0 <= k < |names| ==>
      && |builds[k]| <= |RegistrationOrder|
      && forall m :: 0 <= m < |builds[k]| ==> builds[k][m].name == BeanName(names[k], RegistrationOrder[m])
  }

  predicate AllLower(names: seq<string>)
  {
    forall k :: 0 <= k < |names| ==> NoAsciiUpper(names[k])
  }

  /** The bean name belongs to `unit`: it is the unit's name followed by a role suffix. */
  predicate NamedAfter(name: string, unit: string)
  {
    exists role :: name == BeanName(unit, role)
  }

  /** No two definitions share a bean name. */
  predicate DistinctNames(definitions: seq<BeanDefinition>)
  {
    forall a, b :: 0 <= a < b < |definitions| ==> definitions[a].name != definitions[b].name
  }

  /** `part` sits in `whole` as a contiguous run starting at `p`. */
  predicate RunAt<T(==)>(whole: seq<T>, part: seq<T>, p: int)
  {
    0 <= p <= |whole| - |part| && whole[p..p + |part|] == part
  }

  /** Two different first occurrences hold different names. */
  lemma FirstOccurrencesDiffer(names: seq<string>, i: int, k: int)
    requires FirstAt(names, i) && FirstAt(names, k) && i != k
    ensures names[i] != names[k]
  {
    if i < k {
      assert names[i] == names[..k][i];
    } else {
      assert names[k] == names[..i][k];
    }
  }

  /** First occurrences below `n` are the same in `names` and in its prefix of length `n`. */
  lemma FirstAtPrefix(names: seq<string>, n: nat, k: int)
    requires n <= |names| && 0 <= k < n
    ensures FirstAt(names[..n], k) <==> FirstAt(names, k)
  {
    assert names[..n][..k] == names[..k];
  }

  /** `d` is one of the beans built at the first occurrence of some name. */
  predicate FromFirstBuild(names: seq<string>, builds: seq<seq<BeanDefinition>>, d: BeanDefinition)
    requires |names| == |builds|
  {
    exists k :: 0 <= k < |names| && FirstAt(names, k) && d in builds[k]
  }

  /** Every discovered bean comes from the build at the first occurrence of some name. */
  lemma {:induction false} DiscoveredOwners(names: seq<string>, builds: seq<seq<BeanDefinition>>)
    requires |names| == |builds|
    ensures forall a :: 0 <= a < |Discovered(names, builds)| ==>
      FromFirstBuild(names, builds, Discovered(names, builds)[a])
  {
    if |names| > 0 {
      var n := |names| - 1;
      DiscoveredOwners(names[..n], builds[..n]);
      var front := Discovered(names[..n], builds[..n]);
      var last: seq<BeanDefinition> := if names[n] in names[..n] then [] else builds[n];
      assert Discovered(names, builds) == front + last;
      forall a | 0 <= a < |Discovered(names, builds)|
        ensures FromFirstBuild(names, builds, Discovered(names, builds)[a])
      {
        var d := Discovered(names, builds)[a];
        if a < |front| {
          assert FromFirstBuild(names[..n], builds[..n], front[a]);
          var k :| 0 <= k < n && FirstAt(names[..n], k) && front[a] in builds[..n][k];
          FirstAtPrefix(names, n, k);
          assert d == front[a] && builds[..n][k] == builds[k];
          assert FirstAt(names, k) && d in builds[k];
        } else {
          assert d == last[a - |front|];
          assert FirstAt(names, n) && d in builds[n];
        }
      }
    }
  }

  /**
   * The build at a first occurrence is registered whole and in order: a
   * failure before or after it does not cut into it.
   */
  lemma {:induction false} DiscoveredKeepsFirstBuild(names: seq<string>, builds: seq<seq<BeanDefinition>>, j: int)
    requires |names| == |builds| && FirstAt(names, j)
    ensures exists p :: RunAt(Discovered(names, builds), builds[j], p)
  {
    var n := |names| - 1;
    var front := Discovered(names[..n], builds[..n]);
    var last: seq<BeanDefinition> := if names[n] in names[..n] then [] else builds[n];
    var all := front + last;
    assert Discovered(names, builds) == all;
    if j < n {
      FirstAtPrefix(names, n, j);
      DiscoveredKeepsFirstBuild(names[..n], builds[..n], j);
      assert builds[..n][j] == builds[j];
      var p :| RunAt(front, builds[j], p);
      assert all[p..p + |builds[j]|] == front[p..p + |builds[j]|];
      assert RunAt(all, builds[j], p);
    } else {
      assert all[|front|..|front| + |builds[j]|] == last;
      assert RunAt(all, builds[j], |front|);
    }
  }

  /** No discovered bean is named after a lower-case unit that is not among the names. */
  lemma NotNamedAfterAbsent(names: seq<string>, builds: seq<seq<BeanDefinition>>, unit: string)
    requires |names| == |builds| && Labelled(names, builds)
    requires AllLower(names) && NoAsciiUpper(unit) && unit !in names
    ensures forall a :: 0 <= a < |Discovered(names, builds)| ==> !NamedAfter(Discovered(names, builds)[a].name, unit)
  {
    var all := Discovered(names, builds);
    DiscoveredOwners(names, builds);
    forall a | 0 <= a < |all| ensures !NamedAfter(all[a].name, unit) {
      assert FromFirstBuild(names, builds, all[a]);
      var k :| 0 <= k < |names| && FirstAt(names, k) && all[a] in builds[k];
      var m :| 0 <= m < |builds[k]| && builds[k][m] == all[a];
      var name := all[a].name;
      if NamedAfter(name, unit) {
        var role :| name == BeanName(unit, role);
        BeanNameInjective(names[k], RegistrationOrder[m], unit, role);
        assert false;
      }
    }
  }

  /**
   * A unit whose first build registers nothing never gets a bean, even when a
   * later position with the same name would have built one.
   */
  lemma EmptyFirstBuildBlocksUnit(names: seq<string>, builds: seq<seq<BeanDefinition>>, i: int)
    requires |names| == |builds| && Labelled(names, builds) && AllLower(names)
    requires FirstAt(names, i) && builds[i] == []
    ensures forall a :: 0 <= a < |Discovered(names, builds)| ==> !NamedAfter(Discovered(names, builds)[a].name, names[i])
  {
    var all := Discovered(names, builds);
    DiscoveredOwners(names, builds);
    forall a | 0 <= a < |all| ensures !NamedAfter(all[a].name, names[i]) {
      assert FromFirstBuild(names, builds, all[a]);
      var k :| 0 <= k < |names| && FirstAt(names, k) && all[a] in builds[k];
      var m :| 0 <= m < |builds[k]| && builds[k][m] == all[a];
      FirstOccurrencesDiffer(names, i, k);
      var name := all[a].name;
      if NamedAfter(name, names[i]) {
        var role :| name == BeanName(names[i], role);
        BeanNameInjective(names[k], RegistrationOrder[m], names[i], role);
        assert false;
      }
    }
  }

  /**
   * Appending the beans of a new lower-case unit, one per role in registration
   * order, to definitions none of which is named after it keeps the names distinct.
   */
  lemma AppendUnitKeepsDistinct(front: seq<BeanDefinition>, unit: string, last: seq<BeanDefinition>)
    requires DistinctNames(front)
    requires forall a :: 0 <= a < |front| ==> !NamedAfter(front[a].name, unit)
    requires NoAsciiUpper(unit) && |last| <= |RegistrationOrder|
    requires forall k :: 0 <= k < |last| ==> last[k].name == BeanName(unit, RegistrationOrder[k])
    ensures DistinctNames(front + last)
  {
    var all := front + last;
    forall a, b | 0 <= a < b < |all| ensures all[a].name != all[b].name {
      if b < |front| {
        assert all[a] == front[a] && all[b] == front[b];
      } else if a >= |front| {
        var ra, rb := RegistrationOrder[a - |front|], RegistrationOrder[b - |front|];
        assert all[a] == last[a - |front|] && all[b] == last[b - |front|];
        assert ra != rb;
        if all[a].name == all[b].name {
          BeanNameInjective(unit, ra, unit, rb);
        }
      } else {
        assert all[a] == front[a] && all[b] == last[b - |front|];
        assert all[b].name == BeanName(unit, RegistrationOrder[b - |front|]);
      }
    }
  }

  /** No two discovered beans share a name. */
  lemma {:induction false} DiscoveredNamesDistinct(names: seq<string>, builds: seq<seq<BeanDefinition>>)
    requires |names| == |builds| && Labelled(names, builds) && AllLower(names)
    ensures DistinctNames(Discovered(names, builds))
  {
    if |names| > 0 {
      var n := |names| - 1;
      var front := Discovered(names[..n], builds[..n]);
      assert Labelled(names[..n], builds[..n]);
      assert AllLower(names[..n]);
      DiscoveredNamesDistinct(names[..n], builds[..n]);
      if names[n] !in names[..n] {
        NotNamedAfterAbsent(names[..n], builds[..n], names[n]);
        AppendUnitKeepsDistinct(front, names[n], builds[n]);
      }
    }
  }

  // ---------------------------------------------------------------------------
  // The discovery run over resources

  /** What building one resource registers, taken on its own. */
  function Build(resource: Resource): seq<BeanDefinition>
    requires |resource.filename| >= |FILENAME_SUFFIX|
  {
    Built(UnitNameFromFilename(resource.filename), resource.file)
  }

  /** What building each resource would register, taken on its own. */
  function Builds(resources: seq<Resource>): (builds: seq<seq<BeanDefinition>>)
    requires Named(resources)
    ensures |builds| == |resources|
    ensures forall i :: 0 <= i < |resources| ==> builds[i] == Build(resources[i])
  {
    if |resources| == 0 then []
    else
      var n := |resources| - 1;
      Builds(resources[..n]) + [Build(resources[n])]
  }

  /** The whole discovery run: what is registered for a sequence of resources. */
  function Registered(resources: seq<Resource>): seq<BeanDefinition>
    requires Named(resources)
  {
    Discovered(UnitNames(resources), Builds(resources))
  }

  /** The unit names found are lower-case and label the builds. */
  lemma {:induction false} ResourcesLabelled(resources: seq<Resource>)
    requires Named(resources)
    ensures AllLower(UnitNames(resources))
    ensures Labelled(UnitNames(resources), Builds(resources))
  {
    var names: seq<string>, builds: seq<seq<BeanDefinition>> := UnitNames(resources), Builds(resources);
    forall k | 0 <= k < |resources| ensures NoAsciiUpper(names[k]) {
      UnitNameLowered(resources[k].filename);
    }
    forall k | 0 <= k < |resources|
      ensures forall m :: 0 <= m < |builds[k]| ==> builds[k][m].name == BeanName(names[k], RegistrationOrder[m])
    {
      assert builds[k] == Build(resources[k]);
      if resources[k].file.Readable? {
        UnitDefinitionsNamed(names[k], resources[k].file.entries);
      }
    }
  }

  /**
   * Associativity of concatenation, as a separate fact: asserted inside the
   * discovery loop it makes that proof markedly more expensive.
   */
  lemma ConcatAssociates<T>(a: seq<T>, b: seq<T>, c: seq<T>)
    ensures a + (b + c) == a + b + c
  {
  }

  /** The unit names of a prefix of the resources are that prefix of the unit names. */
  lemma {:induction false} UnitNamesPrefix(resources: seq<Resource>, n: nat)
    requires Named(resources) && n <= |resources|
    ensures Named(resources[..n])
    ensures UnitNames(resources[..n]) == UnitNames(resources)[..n]
    decreases |resources|
  {
    if n < |resources| {
      var m := |resources| - 1;
      UnitNamesPrefix(resources[..m], n);
      assert resources[..m][..n] == resources[..n];
    } else {
      assert resources[..n] == resources;
    }
  }

  /** The builds of a prefix of the resources are that prefix of the builds. */
  lemma {:induction false} BuildsPrefix(resources: seq<Resource>, n: nat)
    requires Named(resources) && n <= |resources|
    ensures Named(resources[..n])
    ensures Builds(resources[..n]) == Builds(resources)[..n]
    decreases |resources|
  {
    if n < |resources| {
      var m := |resources| - 1;
      BuildsPrefix(resources[..m], n);
      assert resources[..m][..n] == resources[..n];
    } else {
      assert resources[..n] == resources;
    }
  }

  /** One step of the discovery loop: the resource at `i` is built exactly when its name is new. */
  lemma DiscoveryStep(resources: seq<Resource>, i: nat)
    requires Named(resources) && i < |resources|
    ensures Named(resources[..i]) && Named(resources[..i + 1])
    ensures UnitNames(resources[..i + 1]) == UnitNames(resources[..i]) + [UnitNameFromFilename(resources[i].filename)]
    ensures var unit := UnitNameFromFilename(resources[i].filename);
      var isNew := unit !in UnitNames(resources[..i]);
      && FirstIndices(UnitNames(resources[..i + 1]))
           == FirstIndices(UnitNames(resources[..i])) + (if isNew then [i] else [])
      && Registered(resources[..i + 1])
           == Registered(resources[..i]) + (if isNew then Built(unit, resources[i].file) else [])
  {
    var next := resources[..i + 1];
    assert next[..i] == resources[..i];
    UnitNamesPrefix(next, i);
    BuildsPrefix(next, i);
    var names, builds := UnitNames(next), Builds(next);
    assert names[..i] == UnitNames(resources[..i]);
    assert builds[..i] == Builds(resources[..i]);
    assert names[i] == UnitNameFromFilename(resources[i].filename);
    assert builds[i] == Built(names[i], resources[i].file);
  }

  /** No two beans registered in one run share a name. */
  lemma RegisteredNamesDistinct(resources: seq<Resource>)
    requires Named(resources)
    ensures DistinctNames(Registered(resources))
  {
    ResourcesLabelled(resources);
    DiscoveredNamesDistinct(UnitNames(resources), Builds(resources));
  }

  /**
   * A unit whose first resource is readable has its five beans registered
   * together and in order, whatever failed before or after it.
   */
  lemma ReadableFirstResourceRegistered(resources: seq<Resource>, j: int)
    requires Named(resources) && FirstAt(UnitNames(resources), j) && resources[j].file.Readable?
    ensures exists p :: RunAt(Registered(resources), UnitDefinitions(UnitNames(resources)[j], resources[j].file.entries), p)
  {
    var names, builds := UnitNames(resources), Builds(resources);
    var definitions := UnitDefinitions(names[j], resources[j].file.entries);
    DiscoveredKeepsFirstBuild(names, builds, j);
    var p :| RunAt(Discovered(names, builds), builds[j], p);
    assert builds[j] == Build(resources[j]);
    assert builds[j] == definitions;
    assert RunAt(Registered(resources), definitions, p);
  }

  /**
   * A unit whose first resource cannot be read never gets a bean, even when
   * a later resource with the same name is readable.
   */
  lemma UnreadableFirstResourceBlocksUnit(resources: seq<Resource>, i: int)
    requires Named(resources) && FirstAt(UnitNames(resources), i) && resources[i].file.Unreadable?
    ensures forall a :: 0 <= a < |Registered(resources)| ==>
      !NamedAfter(Registered(resources)[a].name, UnitNames(resources)[i])
  {
    ResourcesLabelled(resources);
    EmptyFirstBuildBlocksUnit(UnitNames(resources), Builds(resources), i);
  }

  // ---------------------------------------------------------------------------
  // Masking

  /** The value of `key`, when there is one, replaced by the mask. */
  function MaskKey(properties: map<string, string>, key: string): map<string, string>
  {
    if key in properties then properties[key := MASK] else properties
  }

  /** The properties with the username and password values replaced by the mask. */
  function Masked(properties: map<string, string>): (masked: map<string, string>)
    ensures masked.Keys == properties.Keys
    ensures forall k :: k in properties && (k == USERNAME || k == PASSWORD) ==> masked[k] == MASK
    ensures forall k :: k in properties && k != USERNAME && k != PASSWORD ==> masked[k] == properties[k]
  {
    MaskKey(MaskKey(properties, USERNAME), PASSWORD)
  }

  /** `remove` followed, when something was removed, by `put` of the mask is `MaskKey`. */
  lemma RemoveThenMask(properties: map<string, string>, key: string)
    ensures key in properties ==> (properties - {key})[key := MASK] == MaskKey(properties, key)
    ensures key !in properties ==> properties - {key} == MaskKey(properties, key)
  {
    if key in properties {
      assert (properties - {key})[key := MASK].Keys == properties[key := MASK].Keys;
    } else {
      assert (properties - {key}).Keys == properties.Keys;
    }
  }

  /** Masking an already masked map changes nothing. */
  lemma MaskedIdempotent(properties: map<string, string>)
    ensures Masked(Masked(properties)) == Masked(properties)
  {
  }

  // ---------------------------------------------------------------------------
  // The registrar

  class RegistrarSupport<Environment, ResourceLoader> {
    var environment: Option<Environment>
    var resourceLoader: Option<ResourceLoader>

    constructor ()
      ensures environment == None && resourceLoader == None
    {
      environment := None;
      resourceLoader := None;
    }

    method SetEnvironment(environment: Environment)
      modifies this
      ensures this.environment == Some(environment) && resourceLoader == old(resourceLoader)
    {
      this.environment := Some(environment);
    }

    method SetResourceLoader(resourceLoader: ResourceLoader)
      modifies this
      ensures this.resourceLoader == Some(resourceLoader) && environment == old(environment)
    {
      this.resourceLoader := Some(resourceLoader);
    }

    /**
     * `registerBeanDefinitions`: walks the resources in order, claims each
     * unit name in a set and builds only where the name was new. Answers the
     * positions of the resources whose build was tried.
     */
    method RegisterBeanDefinitions(scan: ScanResult, registry: BeanRegistry) returns (attempted: seq<nat>)
      requires scan.Found? ==> Named(scan.resources)
      modifies registry
      ensures scan.ScanFailed? ==> attempted == [] && registry.definitions == old(registry.definitions)
      ensures scan.Found? ==> attempted == FirstIndices(UnitNames(scan.resources))
      ensures scan.Found? ==> registry.definitions == old(registry.definitions) + Registered(scan.resources)
    {
      attempted := [];
      if scan.ScanFailed? {
        // the scan's I/O failure is logged and nothing is registered
        return;
      }
      var resources := scan.resources;
      var unitNames: set<string> := {};
      for i := 0 to |resources|
        invariant Named(resources[..i])
        invariant forall x :: x in unitNames <==> x in UnitNames(resources[..i])
        invariant attempted == FirstIndices(UnitNames(resources[..i]))
        invariant registry.definitions == old(registry.definitions) + Registered(resources[..i])
      {
        var o := resources[i];
        var prefix := UnitNameFromFilename(o.filename);
        DiscoveryStep(resources, i);
        ghost var isNew := prefix !in UnitNames(resources[..i]);
        ghost var tail := if isNew then Built(prefix, o.file) else [];
        ghost var before := registry.definitions;
        // HashSet.add: true when the name was not there yet
        var added := prefix !in unitNames;
        unitNames := unitNames + {prefix};
        if added {
          attempted := attempted + [i];
          var source := BuildDataSourceQuietly(prefix, o, registry);
        }
        assert registry.definitions == before + tail;
        ghost var start, done := old(registry.definitions), Registered(resources[..i]);
        assert Registered(resources[..i + 1]) == done + tail;
        ConcatAssociates(start, done, tail);
      }
      assert resources[..|resources|] == resources;
    }

    /**
     * `buildDataSourceQuietly`: loads the unit's properties and registers its
     * beans; an unreadable file registers nothing. Answers the configuration
     * source it hands to the repository registration.
     */
    method BuildDataSourceQuietly(unitName: string, resource: Resource, registry: BeanRegistry)
      returns (source: Option<PropertiesRepositoryConfigurationSource>)
      modifies registry
      ensures registry.definitions == old(registry.definitions) + Built(unitName, resource.file)
      ensures source.None? <==> resource.file.Unreadable?
      ensures source.Some? ==>
        && fresh(source.value) && fresh(source.value.properties)
        && source.value.properties.entries == Exported(unitName, resource.file.entries)
        && source.value.GetAttribute(ENTITY_MANAGER_FACTORY_REF) == Some(BeanName(unitName, EntityManagerFactory))
        && source.value.GetAttribute(TRANSACTION_MANAGER_REF) == Some(BeanName(unitName, TransactionManager))
    {
      var loaded := LoadProperties(resource);
      if loaded.None? {
        // the I/O failure is logged and the loop goes on with the next resource
        return None;
      }
      var properties := loaded.value;
      var logged := MaskedProperties(properties);

      var dataSourceName := BeanName(unitName, DataSource);
      RegisterDataSourceDefinitions(dataSourceName, properties, registry);

      var src := new PropertiesRepositoryConfigurationSource(properties);

      var entityManagerFactoryName := BeanName(unitName, EntityManagerFactory);
      RegisterEntityManagerFactoryDefinitions(entityManagerFactoryName, dataSourceName, unitName, src, registry);

      var transactionManagerName := BeanName(unitName, TransactionManager);
      RegisterTransactionManagerDefinitions(transactionManagerName, entityManagerFactoryName, registry);

      RegisterOrmRegistrationDefinitions(BeanName(unitName, OrmRegistration), dataSourceName,
        entityManagerFactoryName, transactionManagerName, registry);

      // export entity manager factory and transaction manager to the repository configuration
      properties.Put(ENTITY_MANAGER_FACTORY_REF, entityManagerFactoryName);
      properties.Put(TRANSACTION_MANAGER_REF, transactionManagerName);
      source := Some(src);
    }

    /** `loadProperties`: copies every parsed entry into a new map, one key at a time. */
    method LoadProperties(resource: Resource) returns (properties: Option<PropertyMap>)
      ensures properties.None? <==> resource.file.Unreadable?
      ensures properties.Some? ==> fresh(properties.value) && properties.value.entries == resource.file.entries
    {
      if resource.file.Unreadable? {
        return None;
      }
      var parsed := resource.file.entries;
      var propertiesMap := new PropertyMap(map[]);
      var names := parsed.Keys;
      while names != {}
        invariant names <= parsed.Keys
        invariant propertiesMap.entries.Keys == parsed.Keys - names
        invariant forall k :: k in propertiesMap.entries ==> propertiesMap.entries[k] == parsed[k]
        decreases names
      {
        var name :| name in names;
        propertiesMap.Put(name, parsed[name]);
        names := names - {name};
      }
      properties := Some(propertiesMap);
    }

    /** `maskedProperties`: a copy of the map with the credentials masked; the input is untouched. */
    method MaskedProperties(properties: PropertyMap) returns (masked: PropertyMap)
      ensures fresh(masked)
      ensures masked.entries == Masked(properties.entries)
      ensures properties.entries == old(properties.entries)
    {
      masked := new PropertyMap(properties.entries);
      RemoveThenMask(properties.entries, USERNAME);
      var user := masked.Remove(USERNAME);
      if user.Some? {
        masked.Put(USERNAME, MASK);
      }
      ghost var withUser := masked.entries;
      assert withUser == MaskKey(properties.entries, USERNAME);
      RemoveThenMask(withUser, PASSWORD);
      var password := masked.Remove(PASSWORD);
      if password.Some? {
        masked.Put(PASSWORD, MASK);
      }
    }

    method RegisterDataSourceDefinitions(beanName: string, properties: PropertyMap, registry: BeanRegistry)
      modifies registry
      ensures registry.definitions ==
        old(registry.definitions) + [BeanDefinition(beanName, PooledDataSource(PoolFor(properties.entries)))]
    {
      registry.RegisterBeanDefinition(beanName, PooledDataSource(PoolSettings(
        properties.Get(DRIVER_CLASS_NAME),
        properties.Get(URL),
        properties.Get(USERNAME),
        properties.Get(PASSWORD),
        "0",
        "20")));
    }

    method RegisterEntityManagerFactoryDefinitions(entityManagerFactoryName: string, dataSourceName: string,
                                                   persistenceUnitName: string,
                                                   source: PropertiesRepositoryConfigurationSource,
                                                   registry: BeanRegistry)
      modifies registry
      ensures registry.definitions == old(registry.definitions) + [
        BeanDefinition(entityManagerFactoryName + "VendorAdapter", JpaVendorAdapter),
        BeanDefinition(entityManagerFactoryName,
          EntityManagerFactoryBean(entityManagerFactoryName + "VendorAdapter", dataSourceName,
                                   persistenceUnitName, BasePackages(source.properties.entries)))]
    {
      registry.RegisterBeanDefinition(entityManagerFactoryName + "VendorAdapter", JpaVendorAdapter);
      var packagesToScan := source.GetBasePackages();
      registry.RegisterBeanDefinition(entityManagerFactoryName,
        EntityManagerFactoryBean(entityManagerFactoryName + "VendorAdapter", dataSourceName,
                                 persistenceUnitName, packagesToScan));
    }

    method RegisterTransactionManagerDefinitions(transactionManagerName: string, entityManagerFactoryName: string,
                                                 registry: BeanRegistry)
      modifies registry
      ensures registry.definitions == old(registry.definitions) + [
        BeanDefinition(transactionManagerName, JpaTransactionManager(entityManagerFactoryName))]
    {
      registry.RegisterBeanDefinition(transactionManagerName, JpaTransactionManager(entityManagerFactoryName));
    }

    method RegisterOrmRegistrationDefinitions(ormRegistrationName: string, dataSourceName: string,
                                              entityManagerFactoryName: string, transactionManagerName: string,
                                              registry: BeanRegistry)
      modifies registry
      ensures registry.definitions == old(registry.definitions) + [
        BeanDefinition(ormRegistrationName,
          OrmRegistrationBean(dataSourceName, entityManagerFactoryName, transactionManagerName))]
    {
      registry.RegisterBeanDefinition(ormRegistrationName,
        OrmRegistrationBean(dataSourceName, entityManagerFactoryName, transactionManagerName));
    }
  }
}
