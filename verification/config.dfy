/** Process-wide configuration and the physical table name both batch
    operations derive from it. */
module Config {
  import opened Common

  /** The environment variables read when a table name is composed:
      GRAPHQL_API_ENDPOINT and ENV (None when the variable is unset). */
  datatype Environment = Environment(endpoint: Option<string>, env: Option<string>)

  /** The source checks the endpoint for truthiness, so an empty value counts as missing. */
  predicate EndpointSet(e: Environment) {
    e.endpoint.Some? && e.endpoint.value != ""
  }

  /** String concatenation renders an unset variable as the text "undefined". */
  function EnvText(v: Option<string>): string {
    match v
    case Some(s) => s
    case None => "undefined"
  }

  /** What a deployment appends to every logical table name. */
  function Suffix(e: Environment): string
    requires EndpointSet(e)
  {
    "-" + e.endpoint.value + "-" + EnvText(e.env)
  }

  /** Recovers the logical table name from a physical one composed under `e`,
      or None when `physical` does not carry this deployment's suffix. */
  function LogicalName(physical: string, e: Environment): Option<string>
    requires EndpointSet(e)
  {
    var s := Suffix(e);
    if |s| <= |physical| && physical[|physical| - |s|..] == s
    then Some(physical[..|physical| - |s|])
    else None
  }

  /** The physical table name: the logical name, the endpoint and the
      environment name joined by "-". A missing endpoint is a configuration
      error; an unset ENV is not checked. */
  function PhysicalTableName(tableName: string, e: Environment): (r: Result<string>)
    ensures r.Err? <==> !EndpointSet(e)
    ensures r.Err? ==> r.error == ConfigMissing
    ensures r.Ok? ==> LogicalName(r.value, e) == Some(tableName)
    ensures r.Ok? ==> r.value[..|tableName|] == tableName
  {
    if EndpointSet(e) then
      var name := tableName + Suffix(e);
      assert name[|name| - |Suffix(e)|..] == Suffix(e);
      assert name[..|name| - |Suffix(e)|] == tableName;
      Ok(name)
    else
      Err(ConfigMissing)
  }

  /** Under one configuration, distinct logical tables never share a physical table. */
  lemma PhysicalTableNameInjective(t1: string, t2: string, e: Environment)
    requires EndpointSet(e)
    requires PhysicalTableName(t1, e) == PhysicalTableName(t2, e)
    ensures t1 == t2
  {
    assert Some(t1) == LogicalName(PhysicalTableName(t1, e).value, e);
  }
}
