# Dynamic ORM repository registrar, in Dafny

This project models the logic at the centre of the `agilemicroservices`
autoconfiguration for dynamic JPA repositories. The registrar
(`DynamicRepositoryBeanDefinitionRegistrarSupport`) scans the classpath for
`*.orm.properties` files. Each filename, minus its 15-character suffix and
lower-cased, names a persistence unit. For the first file of every unit it
loads the properties and registers five beans, in this order:

1. a c3p0 pooled data source;
2. a Hibernate JPA vendor adapter;
3. an entity manager factory;
4. a JPA transaction manager;
5. an `OrmRegistration`.

It then writes the names of the entity manager factory and the transaction
manager back into the unit's properties. A per-unit
`PropertiesRepositoryConfigurationSource` wraps that same properties map. It
parses `repository.base_packages` into the packages to scan, looks up
attributes, and gives fixed answers for the other repository settings.

Files:

- `wrappers.dfy`: `Option`, which stands for Java's `null` and `Optional`, and map lookup.
- `java_strings.dfy`: the parts of `String` the code uses: ASCII `toLowerCase`, `trim`, and `split` on a single character, including the rule that drops trailing empty strings.
- `property_map.dfy`: a `HashMap<String, String>` as a class whose entries its holders update in place.
- `configuration_source.dfy`: the configuration source, its property keys and the base-package parsing.
- `beans.dfy`: the bean roles and the naming scheme, the bean definitions and what they reference, and the registry as a sequence that only grows.
- `registrar.dfy`: the registrar. Its methods follow the Java methods one for one.
  - Each method is proved against specification functions: `UnitNames`, `FirstIndices`, `Registered`, `UnitDefinitions`, `Exported` and `Masked`.
  - Lemmas about those functions prove what the discovery run promises:
    - one build per distinct unit name, on its first resource;
    - a name is claimed before its build is tried;
    - an I/O failure while loading one file does not stop the run;
    - bean names are unique;
    - credentials are masked.

The scan result and the outcome of reading each properties file are inputs.
A scan either finds a sequence of resources or fails. Each resource is either
readable, with some string map as its contents, or unreadable.

## Model

| member | source | states |
|---|---|---|
| JavaStrings.ToLowerAscii | src/main/java/org/agilemicroservices/autoconfigure/orm/DynamicRepositoryBeanDefinitionRegistrarSupport.java:106 | Lower-casing keeps the length, lower-cases each character in place and leaves no ASCII capital. |
| JavaStrings.LowerOfLower | src/main/java/org/agilemicroservices/autoconfigure/orm/DynamicRepositoryBeanDefinitionRegistrarSupport.java:106 | Lower-casing a string with no capital leaves it unchanged. |
| JavaStrings.Trim | src/main/java/org/agilemicroservices/autoconfigure/orm/PropertiesRepositoryConfigurationSource.java:45-46 | Requires nothing. It computes `String.trim`: the string without the characters at or below U+0020 at either end. |
| JavaStrings.TrimStartDropsBlankPrefix | src/main/java/org/agilemicroservices/autoconfigure/orm/PropertiesRepositoryConfigurationSource.java:45 | Trimming the front removes a prefix made only of characters at or below U+0020, and what remains starts with a character above U+0020. |
| JavaStrings.TrimEndDropsBlankSuffix | src/main/java/org/agilemicroservices/autoconfigure/orm/PropertiesRepositoryConfigurationSource.java:45 | Trimming the back removes a blank suffix, and what remains ends with a character above U+0020. |
| JavaStrings.TrimShape | src/main/java/org/agilemicroservices/autoconfigure/orm/PropertiesRepositoryConfigurationSource.java:45-47 | `trim` never lengthens a string and leaves no blank at either end. It gives the empty string exactly when the input is blank. |
| JavaStrings.SplitAllCount | src/main/java/org/agilemicroservices/autoconfigure/orm/PropertiesRepositoryConfigurationSource.java:45 | The full segmentation, before `split` drops trailing empty strings, has one more segment than there are separators. `split` itself may return fewer: `"a,".split(",")` has one element. |
| JavaStrings.SplitAllSegments | src/main/java/org/agilemicroservices/autoconfigure/orm/PropertiesRepositoryConfigurationSource.java:45 | No segment contains the separator. |
| JavaStrings.JoinSplitAll | src/main/java/org/agilemicroservices/autoconfigure/orm/PropertiesRepositoryConfigurationSource.java:45 | Splitting then re-joining with the separator gives back the input, so splitting loses nothing. |
| JavaStrings.SplitAllWithoutSeparator | src/main/java/org/agilemicroservices/autoconfigure/orm/PropertiesRepositoryConfigurationSource.java:45 | A string without the separator is its own only segment. |
| JavaStrings.DropTrailingEmptyShape | src/main/java/org/agilemicroservices/autoconfigure/orm/PropertiesRepositoryConfigurationSource.java:45 | `split` keeps a prefix of the segments. Every segment it drops is empty, and the last one it keeps is not. |
| JavaStrings.Split | src/main/java/org/agilemicroservices/autoconfigure/orm/PropertiesRepositoryConfigurationSource.java:45 | Requires nothing. It computes `String.split` on a one-character separator with no limit. A string without the separator comes back whole, so `""` gives `[""]`. Otherwise the result is the full segmentation minus its trailing empty segments, so `","` gives `[]`. |
| JavaStrings.SplitSegments | src/main/java/org/agilemicroservices/autoconfigure/orm/PropertiesRepositoryConfigurationSource.java:45 | `split(",")` gives at most one segment more than there are commas, and no segment contains a comma. |
| RepositoryConfiguration.KeepNonBlank | src/main/java/org/agilemicroservices/autoconfigure/orm/PropertiesRepositoryConfigurationSource.java:46-48 | Requires nothing. It computes the segments whose trimmed form is non-empty, in their order and as split, untrimmed (`add(o)`, not `add(packageName)`). |
| RepositoryConfiguration.KeepNonBlankMembers | src/main/java/org/agilemicroservices/autoconfigure/orm/PropertiesRepositoryConfigurationSource.java:45-49 | A segment is kept exactly when its trimmed form is non-empty. Nothing is invented, and the result is no longer than the input. |
| RepositoryConfiguration.KeepNonBlankCounts | src/main/java/org/agilemicroservices/autoconfigure/orm/PropertiesRepositoryConfigurationSource.java:45-49 | Each non-blank segment is kept as many times as it occurs, and a blank one not at all. Duplicates are neither merged nor invented. |
| RepositoryConfiguration.KeepNonBlankIsSubsequence | src/main/java/org/agilemicroservices/autoconfigure/orm/PropertiesRepositoryConfigurationSource.java:45-49 | The kept segments are an order-preserving subsequence of the segments. |
| RepositoryConfiguration.KeepNonBlankIgnoresTrailingEmpty | src/main/java/org/agilemicroservices/autoconfigure/orm/PropertiesRepositoryConfigurationSource.java:45-49 | Dropping trailing empty segments before filtering changes nothing. |
| RepositoryConfiguration.BasePackages | src/main/java/org/agilemicroservices/autoconfigure/orm/PropertiesRepositoryConfigurationSource.java:41-53 | Requires nothing. It computes the packages `getBasePackages` answers for a properties map: none when `repository.base_packages` is absent (its ensures). Otherwise they are the segments of the trimmed value split on commas whose trim is non-empty, kept untrimmed and in order. |
| RepositoryConfiguration.BasePackagesWellFormed | src/main/java/org/agilemicroservices/autoconfigure/orm/PropertiesRepositoryConfigurationSource.java:42-52 | An absent `repository.base_packages` gives no packages. Every package returned is non-empty after trimming and contains no comma. |
| RepositoryConfiguration.BasePackagesFromSegments | src/main/java/org/agilemicroservices/autoconfigure/orm/PropertiesRepositoryConfigurationSource.java:45-49 | For any properties holding `repository.base_packages`, whose value is `value`, the packages form an order-preserving subsequence of `trim(value).split(",")`. They are the non-blank segments of all the comma segments, and there is at most one more of them than there are commas. |
| RepositoryConfiguration.BasePackagesKeepSpaces | src/main/java/org/agilemicroservices/autoconfigure/orm/PropertiesRepositoryConfigurationSource.java:46-48 | Packages are returned untrimmed: `"a, b ,, c"` gives `"a"`, `" b "` and `" c"`. |
| RepositoryConfiguration.PropertiesRepositoryConfigurationSource.constructor | src/main/java/org/agilemicroservices/autoconfigure/orm/PropertiesRepositoryConfigurationSource.java:26-38 | The source holds the very map object it was given, and `getSource` and `getProperties` return that object. |
| RepositoryConfiguration.PropertiesRepositoryConfigurationSource.GetBasePackages | src/main/java/org/agilemicroservices/autoconfigure/orm/PropertiesRepositoryConfigurationSource.java:40-53 | The loop's list equals `BasePackages` of the current entries. It is empty when the key is absent. |
| RepositoryConfiguration.PropertiesRepositoryConfigurationSource.GetAttribute | src/main/java/org/agilemicroservices/autoconfigure/orm/PropertiesRepositoryConfigurationSource.java:81-84 | Answers `Some(v)` exactly when the map holds `name ↦ v`, and `None` otherwise. |
| RepositoryConfiguration.FixedAnswers | src/main/java/org/agilemicroservices/autoconfigure/orm/PropertiesRepositoryConfigurationSource.java:55-89 | A source answers the same whatever its properties: lookup key `CREATE_IF_NOT_FOUND`, postfix `"Impl"`, named-query location `""`, no base class, no factory bean, and no explicit filters. |
| Beans.RoleSuffix | src/main/java/org/agilemicroservices/autoconfigure/orm/DynamicRepositoryBeanDefinitionRegistrarSupport.java:80-92 | Requires nothing. It computes what follows the unit name for each role: `"DataSource"`, `"EntityManagerFactoryVendorAdapter"` (line 163), `"EntityManagerFactory"`, `"TransactionManager"` and `"OrmRegistration"`. |
| Beans.BeanName | src/main/java/org/agilemicroservices/autoconfigure/orm/DynamicRepositoryBeanDefinitionRegistrarSupport.java:80-92 | Requires nothing. It computes the bean name of a role in a unit: the unit name followed by the role's suffix, as at lines 80, 86, 89, 92 and 163. |
| Beans.BeanNameInjective | src/main/java/org/agilemicroservices/autoconfigure/orm/DynamicRepositoryBeanDefinitionRegistrarSupport.java:80-92 | For lower-case units, a bean name determines both its unit and its role. So distinct units, or distinct roles, never share a bean name. |
| Beans.BeanRegistry.RegisterBeanDefinition | src/main/java/org/agilemicroservices/autoconfigure/orm/DynamicRepositoryBeanDefinitionRegistrarSupport.java:144 | Registering appends one definition with that name and kind to the registry, and changes nothing else. |
| Registrar.UnitNameLowered | src/main/java/org/agilemicroservices/autoconfigure/orm/DynamicRepositoryBeanDefinitionRegistrarSupport.java:105-107 | The unit name is 15 characters shorter than the filename. Each of its characters is the lower-cased character at the same position, so it has no capital. |
| Registrar.UnitNameFromFilename | src/main/java/org/agilemicroservices/autoconfigure/orm/DynamicRepositoryBeanDefinitionRegistrarSupport.java:105-107 | Requires a filename of at least 15 characters, because `substring` would throw on a shorter one. It computes the filename minus its last 15 characters, lower-cased; the name is 15 characters shorter than the filename (its ensures). |
| Registrar.UnitNameRoundTrip | src/main/java/org/agilemicroservices/autoconfigure/orm/DynamicRepositoryBeanDefinitionRegistrarSupport.java:105-107 | A lower-case unit name is recovered from `unit + ".orm.properties"`. |
| Registrar.RederivedUnitName | src/main/java/org/agilemicroservices/autoconfigure/orm/DynamicRepositoryBeanDefinitionRegistrarSupport.java:106 | Deriving again from `name + ".orm.properties"` gives the same name. |
| Registrar.UnitNames | src/main/java/org/agilemicroservices/autoconfigure/orm/DynamicRepositoryBeanDefinitionRegistrarSupport.java:53-54 | One unit name per resource, in scan order: the name derived from that resource's filename. |
| Registrar.FirstIndices | src/main/java/org/agilemicroservices/autoconfigure/orm/DynamicRepositoryBeanDefinitionRegistrarSupport.java:52-57 | Requires nothing. It computes the positions whose unit name does not occur earlier, which are the positions where `unitNames.add` answers true. Each lies within the sequence (its ensures). |
| Registrar.FirstIndicesAreFirstOccurrences | src/main/java/org/agilemicroservices/autoconfigure/orm/DynamicRepositoryBeanDefinitionRegistrarSupport.java:52-57 | A resource's build is attempted exactly when its unit name has not occurred at an earlier position. |
| Registrar.FirstIndicesIncrease | src/main/java/org/agilemicroservices/autoconfigure/orm/DynamicRepositoryBeanDefinitionRegistrarSupport.java:53-57 | Builds are attempted in resource order. |
| Registrar.NoNameBuiltTwice | src/main/java/org/agilemicroservices/autoconfigure/orm/DynamicRepositoryBeanDefinitionRegistrarSupport.java:52-57 | No two attempted builds share a unit name. |
| Registrar.EveryNameBuilt | src/main/java/org/agilemicroservices/autoconfigure/orm/DynamicRepositoryBeanDefinitionRegistrarSupport.java:52-57 | For every position, a build for its unit name was attempted at or before it. |
| Registrar.LaterDuplicateSkipped | src/main/java/org/agilemicroservices/autoconfigure/orm/DynamicRepositoryBeanDefinitionRegistrarSupport.java:55-56 | A resource whose unit name occurred earlier is never built, whether or not the earlier build succeeded. |
| Registrar.PoolFromDatasourceKeys | src/main/java/org/agilemicroservices/autoconfigure/orm/DynamicRepositoryBeanDefinitionRegistrarSupport.java:144-151 | The pool's driver, URL, user and password are the values of the four datasource keys, null when a key is absent. The pool size runs from `"0"` to `"20"`. No other key affects it. |
| Registrar.PoolFor | src/main/java/org/agilemicroservices/autoconfigure/orm/DynamicRepositoryBeanDefinitionRegistrarSupport.java:144-151 | Requires nothing. It computes the c3p0 settings of a unit: the driver, URL, user and password looked up under the four datasource keys, with `Map.get`'s null as `None`, and pool sizes `"0"` and `"20"`. |
| Registrar.UnitDefinitions | src/main/java/org/agilemicroservices/autoconfigure/orm/DynamicRepositoryBeanDefinitionRegistrarSupport.java:80-92 | Requires nothing. It computes the definitions a unit whose properties load registers, in order: the data source, the vendor adapter, the entity manager factory (with the base packages), the transaction manager and the ORM registration. There are exactly five (its ensures). |
| Registrar.UnitDefinitionsNamed | src/main/java/org/agilemicroservices/autoconfigure/orm/DynamicRepositoryBeanDefinitionRegistrarSupport.java:80-92 | A unit's k-th definition is named `unit` plus the k-th role's suffix, in registration order. The vendor adapter is `unit + "EntityManagerFactoryVendorAdapter"`. |
| Registrar.UnitDefinitionsWired | src/main/java/org/agilemicroservices/autoconfigure/orm/DynamicRepositoryBeanDefinitionRegistrarSupport.java:163-201 | Every bean reference a unit's definitions hold names one of that unit's own definitions. |
| Registrar.Built | src/main/java/org/agilemicroservices/autoconfigure/orm/DynamicRepositoryBeanDefinitionRegistrarSupport.java:74-102 | Requires nothing. It computes what building a unit registers: nothing when the file fails with an I/O error, and the five definitions of `UnitDefinitions` when it loads. Its ensures gives the length, 5 or 0. |
| Registrar.Exported | src/main/java/org/agilemicroservices/autoconfigure/orm/DynamicRepositoryBeanDefinitionRegistrarSupport.java:96-97 | After export the map also holds `entityManagerFactoryRef ↦ unit + "EntityManagerFactory"` and `transactionManagerRef ↦ unit + "TransactionManager"`. Every other entry is unchanged. |
| Registrar.ExportKeepsPoolAndPackages | src/main/java/org/agilemicroservices/autoconfigure/orm/DynamicRepositoryBeanDefinitionRegistrarSupport.java:96-97 | Exporting the two references changes neither the pool settings nor the packages to scan. |
| Registrar.Discovered | src/main/java/org/agilemicroservices/autoconfigure/orm/DynamicRepositoryBeanDefinitionRegistrarSupport.java:52-57 | Requires one build per name. It computes the registry effect of the loop over unit names and their builds: for each position in order, its build when the name does not occur earlier, and nothing otherwise. |
| Registrar.DiscoveredOwners | src/main/java/org/agilemicroservices/autoconfigure/orm/DynamicRepositoryBeanDefinitionRegistrarSupport.java:53-57 | Every registered bean comes from the build at the first occurrence of some unit name. |
| Registrar.DiscoveredKeepsFirstBuild | src/main/java/org/agilemicroservices/autoconfigure/orm/DynamicRepositoryBeanDefinitionRegistrarSupport.java:53-57 | The build at a first occurrence appears whole and in order in what is registered. |
| Registrar.NotNamedAfterAbsent | src/main/java/org/agilemicroservices/autoconfigure/orm/DynamicRepositoryBeanDefinitionRegistrarSupport.java:53-57 | No registered bean is named after a lower-case unit that no resource names. |
| Registrar.EmptyFirstBuildBlocksUnit | src/main/java/org/agilemicroservices/autoconfigure/orm/DynamicRepositoryBeanDefinitionRegistrarSupport.java:55-56 | A unit whose first build registers nothing gets no bean at all. |
| Registrar.AppendUnitKeepsDistinct | src/main/java/org/agilemicroservices/autoconfigure/orm/DynamicRepositoryBeanDefinitionRegistrarSupport.java:80-92 | Appending a new unit's beans to beans of other units keeps all names distinct. |
| Registrar.DiscoveredNamesDistinct | src/main/java/org/agilemicroservices/autoconfigure/orm/DynamicRepositoryBeanDefinitionRegistrarSupport.java:53-57 | No two beans of the discovery run share a name. |
| Registrar.ResourcesLabelled | src/main/java/org/agilemicroservices/autoconfigure/orm/DynamicRepositoryBeanDefinitionRegistrarSupport.java:54-56 | Derived unit names are lower-case, and each resource's build consists of beans named after its unit, in role order. |
| Registrar.DiscoveryStep | src/main/java/org/agilemicroservices/autoconfigure/orm/DynamicRepositoryBeanDefinitionRegistrarSupport.java:53-57 | One loop step appends the resource's index to the attempts, and its build to the registry, exactly when its unit name is new. |
| Registrar.Registered | src/main/java/org/agilemicroservices/autoconfigure/orm/DynamicRepositoryBeanDefinitionRegistrarSupport.java:52-57 | Requires every filename to be at least 15 characters long. It computes what one run registers: for each resource in order, its build when its unit name is new, and nothing otherwise. |
| Registrar.RegisteredNamesDistinct | src/main/java/org/agilemicroservices/autoconfigure/orm/DynamicRepositoryBeanDefinitionRegistrarSupport.java:52-57 | No two beans registered for a sequence of resources share a name. |
| Registrar.ReadableFirstResourceRegistered | src/main/java/org/agilemicroservices/autoconfigure/orm/DynamicRepositoryBeanDefinitionRegistrarSupport.java:71-103 | A unit whose first resource is readable has its five beans registered together and in order, however many I/O failures while loading happened before or after it. |
| Registrar.UnreadableFirstResourceBlocksUnit | src/main/java/org/agilemicroservices/autoconfigure/orm/DynamicRepositoryBeanDefinitionRegistrarSupport.java:52-58 | A unit whose first resource cannot be read gets no bean, even if a later resource of the same unit is readable. |
| Registrar.Masked | src/main/java/org/agilemicroservices/autoconfigure/orm/DynamicRepositoryBeanDefinitionRegistrarSupport.java:121-130 | The masked map has the same keys. Username and password map to `"********"` when present, and every other key keeps its value. |
| Registrar.RemoveThenMask | src/main/java/org/agilemicroservices/autoconfigure/orm/DynamicRepositoryBeanDefinitionRegistrarSupport.java:123-128 | `remove`, then `put` of the mask only when something was removed, masks a present key and leaves the map unchanged when the key is absent. |
| Registrar.MaskedIdempotent | src/main/java/org/agilemicroservices/autoconfigure/orm/DynamicRepositoryBeanDefinitionRegistrarSupport.java:121-130 | Masking twice is the same as masking once. |
| Registrar.RegistrarSupport.constructor | src/main/java/org/agilemicroservices/autoconfigure/orm/DynamicRepositoryBeanDefinitionRegistrarSupport.java:34-35 | Neither the environment nor the resource loader is set yet. |
| Registrar.RegistrarSupport.SetEnvironment | src/main/java/org/agilemicroservices/autoconfigure/orm/DynamicRepositoryBeanDefinitionRegistrarSupport.java:220-223 | Sets the environment and leaves the resource loader alone. |
| Registrar.RegistrarSupport.SetResourceLoader | src/main/java/org/agilemicroservices/autoconfigure/orm/DynamicRepositoryBeanDefinitionRegistrarSupport.java:225-228 | Sets the resource loader and leaves the environment alone. |
| Registrar.RegistrarSupport.RegisterBeanDefinitions | src/main/java/org/agilemicroservices/autoconfigure/orm/DynamicRepositoryBeanDefinitionRegistrarSupport.java:46-62 | A failed scan registers nothing. Otherwise the loop, with its `HashSet`, attempts exactly the first-occurrence positions, and the registry grows by exactly `Registered(resources)`. |
| Registrar.RegistrarSupport.BuildDataSourceQuietly | src/main/java/org/agilemicroservices/autoconfigure/orm/DynamicRepositoryBeanDefinitionRegistrarSupport.java:71-103 | An unreadable file registers nothing and throws nothing. A readable one appends the unit's five definitions. The configuration source then sees the loaded map plus the two exported references. |
| Registrar.RegistrarSupport.LoadProperties | src/main/java/org/agilemicroservices/autoconfigure/orm/DynamicRepositoryBeanDefinitionRegistrarSupport.java:109-119 | A readable file gives a fresh map equal to its parsed entries. An unreadable one gives the I/O failure. |
| Registrar.RegistrarSupport.MaskedProperties | src/main/java/org/agilemicroservices/autoconfigure/orm/DynamicRepositoryBeanDefinitionRegistrarSupport.java:121-130 | Returns a fresh map equal to `Masked` of the input and leaves the input unmodified. |
| Registrar.RegistrarSupport.RegisterDataSourceDefinitions | src/main/java/org/agilemicroservices/autoconfigure/orm/DynamicRepositoryBeanDefinitionRegistrarSupport.java:140-153 | Appends one pooled data source whose settings are `PoolFor` of the properties. |
| Registrar.RegistrarSupport.RegisterEntityManagerFactoryDefinitions | src/main/java/org/agilemicroservices/autoconfigure/orm/DynamicRepositoryBeanDefinitionRegistrarSupport.java:156-175 | Appends the vendor adapter `emf + "VendorAdapter"`, then the factory. The factory refers to the adapter and the data source, and scans the source's base packages. |
| Registrar.RegistrarSupport.RegisterTransactionManagerDefinitions | src/main/java/org/agilemicroservices/autoconfigure/orm/DynamicRepositoryBeanDefinitionRegistrarSupport.java:178-187 | Appends a transaction manager that refers to the entity manager factory. |
| Registrar.RegistrarSupport.RegisterOrmRegistrationDefinitions | src/main/java/org/agilemicroservices/autoconfigure/orm/DynamicRepositoryBeanDefinitionRegistrarSupport.java:190-204 | Appends an ORM registration that refers to the data source, the entity manager factory and the transaction manager. |

## Left out

- Classpath scanning (`PathMatchingResourcePatternResolver`, line 51) and reading input streams: the scan result and each file's readability and contents are inputs to the model.
- The `java.util.Properties` file syntax (lines 111-113): a readable file stands for an arbitrary string map.
- Unchecked exceptions while loading. `Properties.load` (line 113) throws `IllegalArgumentException` on a malformed `\uXXXX` escape. Neither `catch (IOException)` (lines 59 and 99) stops it, so in Java it ends the whole run. The model has no such outcome: `Unreadable` stands only for an `IOException`, and every file is either readable or fails that way.
- Logging (for example lines 77-78). The masked map handed to the log is modelled (`Masked`, `MaskedProperties`) and computed in `BuildDataSourceQuietly`; only writing it to the log is left out.
- `registerRepositoryDefinitions` (lines 207-217) and `RepositoryConfigurationDelegate.java`: repository registration through Spring Data extensions. RepositoryConfigurationDelegate.java is not part of this model.
- `OrmRegistration.java`, `EnableDynamicJpaRepositories.java` and `ScriptConfig.java`: they hold no logic and are not part of this model.
- Exceptions the Spring registry may throw, for example on a duplicate bean name: the registry is a sequence that only grows. `RegisteredNamesDistinct` shows that the five per-unit beans of one run never share a name. The repository beans registered through `registerRepositoryDefinitions` (line 98) are outside the model, and so are their names.
- Registrar.RegistrarSupport.RegisterEntityManagerFactoryDefinitions: the `jpaProperties` value (line 173) is the live properties map object, which is left out of the definition.
- Registrar.RegistrarSupport.RegisterOrmRegistrationDefinitions: the `source` value (line 202) is the live configuration source object, which is left out of the definition.
- Registrar.RegistrarSupport.BuildDataSourceQuietly: the environment passed to the configuration source (line 84) is not modelled.
- RepositoryConfiguration.PropertiesRepositoryConfigurationSource.constructor: it takes only the properties map. The Java constructor (line 26) also takes an environment, a resource loader and a registry, which only its superclass uses, and the call at the registrar's line 83-84 passes two of the four.
- RepositoryConfiguration.PropertiesRepositoryConfigurationSource.GetBasePackages: returns the list the code evidently means to return. As written, the cast `(Streamable<String>) basePackages` (line 52) would fail at runtime, because `ArrayList` does not implement `Streamable`. It fails on every call, even for an empty list. In the registrar, that exception would leave `registerEntityManagerFactoryDefinitions` (line 172) after the data source and the vendor adapter are registered, and no `catch (IOException)` would stop it (lines 59 and 99). The model does not reproduce that failure.
- JavaStrings.ToLowerAscii: lower-cases ASCII letters only. Java's `toLowerCase` depends on the locale and covers all of Unicode.
- Registrar.UnitNameFromFilename: requires a filename of at least 15 characters, because the Java code would throw on a shorter one. The scan pattern guarantees the length, but nothing checks that the last 15 characters really are `.orm.properties`, and the model keeps that.
- The code appends each base-package segment as split, untrimmed (line 48), and the model follows the code. An element such as `" b "` keeps its spaces.
