/**
 * The beans one persistence unit contributes: their roles, how they are named
 * after the unit, what each definition carries, and the registry they are
 * appended to.
 */
module Beans {
  import opened Wrappers
  import opened JavaStrings

  datatype BeanRole = DataSource | VendorAdapter | EntityManagerFactory | TransactionManager | OrmRegistration

  /** What follows the unit name in the name of the bean with this role. */
  function RoleSuffix(role: BeanRole): string
  {
    match role
    case DataSource => "DataSource"
    case VendorAdapter => "EntityManagerFactory" + "VendorAdapter"
    case EntityManagerFactory => "EntityManagerFactory"
    case TransactionManager => "TransactionManager"
    case OrmRegistration => "OrmRegistration"
  }

  function BeanName(unit: string, role: BeanRole): string
  {
    unit + RoleSuffix(role)
  }

  /**
   * Every suffix starts with an upper-case letter and no two have the same
   * length, so over lower-case unit names a bean name gives back both its unit
   * and its role: distinct units never share a bean name.
   */
  lemma BeanNameInjective(unit1: string, role1: BeanRole, unit2: string, role2: BeanRole)
    requires NoAsciiUpper(unit1) && NoAsciiUpper(unit2)
    requires BeanName(unit1, role1) == BeanName(unit2, role2)
    ensures unit1 == unit2 && role1 == role2
  {
    SplitAtFirstUpper(unit1, RoleSuffix(role1), unit2, RoleSuffix(role2));
    assert |RoleSuffix(role1)| == |RoleSuffix(role2)|;
  }

  /**
   * A lower-case prefix followed by a part that starts upper-case is
   * determined by the whole: the prefix ends where the first upper-case
   * letter stands.
   */
  lemma SplitAtFirstUpper(prefix1: string, rest1: string, prefix2: string, rest2: string)
    requires NoAsciiUpper(prefix1) && NoAsciiUpper(prefix2)
    requires |rest1| > 0 && IsAsciiUpper(rest1[0])
    requires |rest2| > 0 && IsAsciiUpper(rest2[0])
    requires prefix1 + rest1 == prefix2 + rest2
    ensures prefix1 == prefix2 && rest1 == rest2
  {
    var whole := prefix1 + rest1;
    if |prefix1| < |prefix2| {
      CharOfConcat(prefix1, rest1, |prefix1|);
      CharOfConcat(prefix2, rest2, |prefix1|);
      assert false;
    } else if |prefix2| < |prefix1| {
      CharOfConcat(prefix1, rest1, |prefix2|);
      CharOfConcat(prefix2, rest2, |prefix2|);
      assert false;
    } else {
      assert prefix1 == whole[..|prefix1|] == prefix2;
      assert rest1 == whole[|prefix1|..] == rest2;
    }
  }

  lemma CharOfConcat(a: string, b: string, i: int)
    ensures 0 <= i < |a| ==> (a + b)[i] == a[i]
    ensures |a| <= i < |a| + |b| ==> (a + b)[i] == b[i - |a|]
  {
  }

  /** The settings of a c3p0 `ComboPooledDataSource`; `None` is a null property. */
  datatype PoolSettings = PoolSettings(
    driverClass: Option<string>,
    jdbcUrl: Option<string>,
    user: Option<string>,
    password: Option<string>,
    minPoolSize: string,
    maxPoolSize: string)

  /** The class of a registered bean and the property values it is given. */
  datatype BeanKind =
    | PooledDataSource(pool: PoolSettings)
    | JpaVendorAdapter
    | EntityManagerFactoryBean(jpaVendorAdapter: string, dataSource: string,
                               persistenceUnitName: string, packagesToScan: seq<string>)
    | JpaTransactionManager(entityManagerFactory: string)
    | OrmRegistrationBean(dataSource: string, entityManagerFactory: string,
                          platformTransactionManager: string)

  datatype BeanDefinition = BeanDefinition(name: string, kind: BeanKind)

  /** The names of the other beans a bean refers to (its property references). */
  function References(kind: BeanKind): seq<string>
  {
    match kind
    case PooledDataSource(_) => []
    case JpaVendorAdapter => []
    case EntityManagerFactoryBean(jpaVendorAdapter, dataSource, _, _) => [jpaVendorAdapter, dataSource]
    case JpaTransactionManager(entityManagerFactory) => [entityManagerFactory]
    case OrmRegistrationBean(dataSource, entityManagerFactory, platformTransactionManager) =>
      [dataSource, entityManagerFactory, platformTransactionManager]
  }

  /** The bean-definition registry, seen as the definitions registered so far, in order. */
  class BeanRegistry {
    var definitions: seq<BeanDefinition>

    constructor ()
      ensures definitions == []
    {
      definitions := [];
    }

    method RegisterBeanDefinition(name: string, kind: BeanKind)
      modifies this
      ensures definitions == old(definitions) + [BeanDefinition(name, kind)]
    {
      definitions := definitions + [BeanDefinition(name, kind)];
    }
  }
}
