/** The end-to-end tests' configuration: a table of environments and the
    lookup that picks one from the process environment. */
module TestConfig {
  import opened Outcomes

  datatype UserCredentials = UserCredentials(email: string, password: string, name: string)

  /** Timeouts in milliseconds. */
  datatype Timeouts = Timeouts(standard: int, authentication: int, navigation: int)

  datatype Config = Config(baseUrl: string, user: UserCredentials, timeouts: Timeouts)

  /** The process environment variables the configuration reads. */
  datatype ProcessEnv = ProcessEnv(
    nodeEnv: Option<string>,
    testUserEmail: Option<string>,
    testUserPassword: Option<string>,
    testUserName: Option<string>)

  datatype ConfigError = NoConfiguration(environment: string) | MissingStagingCredentials

  const Staging := "staging"
  const Development := "development"
  const LocalBaseUrl := "http://localhost:3000"

  /** The text of each error. */
  function Message(e: ConfigError): string {
    match e
    case NoConfiguration(environment) =>
      "No test configuration found for environment: " + environment
    case MissingStagingCredentials =>
      "Missing staging test credentials. Please set TEST_USER_EMAIL, TEST_USER_PASSWORD, and TEST_USER_NAME environment variables."
  }

  /** `v || ""`. */
  function OrEmpty(v: Option<string>): (r: string)
    ensures Truthy(v) ==> r == v.value
    ensures !Truthy(v) ==> r == ""
  {
    if Truthy(v) then v.value else ""
  }

  /** The fixed development entry. */
  const DevelopmentConfig := Config(
    LocalBaseUrl,
    UserCredentials("test@test.com", "testtest123", "John Doe"),
    Timeouts(5000, 10000, 3000))

  /** The staging entry, whose credentials come from the environment. */
  function StagingConfig(env: ProcessEnv): Config {
    Config(
      LocalBaseUrl,
      UserCredentials(OrEmpty(env.testUserEmail), OrEmpty(env.testUserPassword), OrEmpty(env.testUserName)),
      Timeouts(10000, 15000, 5000))
  }

  /** `TEST_ENVIRONMENTS`. */
  function Environments(env: ProcessEnv): (table: map<string, Config>)
    ensures table.Keys == {Staging, Development}
  {
    map[Staging := StagingConfig(env), Development := DevelopmentConfig]
  }

  /** `process.env.NODE_ENV || "development"`. */
  function EnvironmentName(env: ProcessEnv): (name: string)
    ensures !Truthy(env.nodeEnv) ==> name == Development
    ensures Truthy(env.nodeEnv) ==> name == env.nodeEnv.value
  {
    if Truthy(env.nodeEnv) then env.nodeEnv.value else Development
  }

  /** `getTestConfig()`. */
  function GetTestConfig(env: ProcessEnv): Result<Config, ConfigError> {
    var environment := EnvironmentName(env);
    var table := Environments(env);
    if environment !in table then Err(NoConfiguration(environment))
    else if environment == Staging &&
            (table[environment].user.email == "" || table[environment].user.password == "" ||
             table[environment].user.name == "")
    then Err(MissingStagingCredentials)
    else Ok(table[environment])
  }

  /** The lookup's outcome for every environment: an unknown name fails
      with that name, staging fails exactly when a credential is empty, and
      a success is the table entry itself. */
  lemma GetTestConfigOutcomes(env: ProcessEnv)
    ensures var name := EnvironmentName(env);
            (name != Staging && name != Development <==> GetTestConfig(env) == Err(NoConfiguration(name)))
    ensures EnvironmentName(env) == Staging ==>
              (GetTestConfig(env) == Err(MissingStagingCredentials) <==>
                 !Truthy(env.testUserEmail) || !Truthy(env.testUserPassword) || !Truthy(env.testUserName))
    ensures EnvironmentName(env) == Development ==> GetTestConfig(env) == Ok(DevelopmentConfig)
    ensures GetTestConfig(env).Ok? ==>
              EnvironmentName(env) in Environments(env) &&
              GetTestConfig(env).value == Environments(env)[EnvironmentName(env)]
    ensures !Truthy(env.nodeEnv) ==> GetTestConfig(env) == Ok(DevelopmentConfig)
  {
  }
}
