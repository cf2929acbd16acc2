/** `DatabaseConnector.read_db_creds`: the five connection settings read from
    the process environment, checked in a fixed order, with the port parsed
    as an integer. */
module Credentials {
  import opened Outcomes
  import opened Text
  import opened Integers

  /** The process environment; a key that is absent is one `os.getenv` reports as `None`. */
  type Env = map<string, string>

  const UserKey := "RDS_USER"
  const PasswordKey := "RDS_PASSWORD"
  const HostKey := "RDS_HOST"
  const PortKey := "RDS_PORT"
  const DatabaseKey := "RDS_DATABASE"

  /** The keys in the order the credentials dictionary lists them, which is
      the order they are checked in. */
  const CredentialKeys: seq<string> := [UserKey, PasswordKey, HostKey, PortKey, DatabaseKey]

  /** The dictionary `read_db_creds` returns, with `RDS_PORT` already an integer. */
  datatype Creds = Creds(user: string, password: string, host: string, port: int, database: string)

  /** The message raised for the missing key `key`. */
  function UnsetMessage(key: string): string {
    "Environment variable " + key + " is not set"
  }

  const InvalidPortMessage := "Invalid RDS_PORT. It must be an integer."

  /** Every credential key is present. */
  predicate AllSet(env: Env) {
    UserKey in env && PasswordKey in env && HostKey in env && PortKey in env && DatabaseKey in env
  }

  /** `keys[i]` is the first of `keys` missing from `env`. */
  predicate FirstUnsetAt(keys: seq<string>, env: Env, i: nat) {
    i < |keys| && keys[i] !in env && forall j :: 0 <= j < i ==> keys[j] in env
  }

  /** The position of the first key of `keys` that `env` lacks. */
  function FirstUnset(keys: seq<string>, env: Env): (r: Option<nat>)
    ensures r.None? <==> forall i :: 0 <= i < |keys| ==> keys[i] in env
    ensures r.Some? ==> FirstUnsetAt(keys, env, r.value)
  {
    if keys == [] then None
    else if keys[0] !in env then Some(0)
    else match FirstUnset(keys[1..], env)
      case None => None
      case Some(i) => Some(i + 1)
  }

  /** `read_db_creds()` against the environment `env`. */
  function ReadDbCreds(env: Env): (r: Result<Creds>)
    ensures forall i: nat :: FirstUnsetAt(CredentialKeys, env, i) ==> r == Err(ValueError(UnsetMessage(CredentialKeys[i])))
    ensures AllSet(env) && ParseInt(env[PortKey]).None? ==> r == Err(ValueError(InvalidPortMessage))
    ensures r.Ok? <==> AllSet(env) && ParseInt(env[PortKey]).Some?
    ensures r.Ok? ==> && r.value.user == env[UserKey]
                      && r.value.password == env[PasswordKey]
                      && r.value.host == env[HostKey]
                      && Some(r.value.port) == ParseInt(env[PortKey])
                      && r.value.database == env[DatabaseKey]
  {
    match FirstUnset(CredentialKeys, env)
    case Some(i) =>
      assert forall k: nat :: FirstUnsetAt(CredentialKeys, env, k) ==> k == i;
      Err(ValueError(UnsetMessage(CredentialKeys[i])))
    case None =>
      assert CredentialKeys[0] in env && CredentialKeys[1] in env && CredentialKeys[2] in env;
      assert CredentialKeys[3] in env && CredentialKeys[4] in env;
      match ParseInt(env[PortKey])
      case None => Err(ValueError(InvalidPortMessage))
      case Some(port) => Ok(Creds(env[UserKey], env[PasswordKey], env[HostKey], port, env[DatabaseKey]))
  }

  /** An environment holding exactly `c`'s settings, the port written as `str` writes it. */
  function EnvFor(c: Creds): (env: Env)
    ensures AllSet(env) && env[PortKey] == IntToString(c.port)
    ensures env[UserKey] == c.user && env[PasswordKey] == c.password
    ensures env[HostKey] == c.host && env[DatabaseKey] == c.database
  {
    KeysDistinct();
    map[UserKey := c.user, PasswordKey := c.password, HostKey := c.host,
        PortKey := IntToString(c.port), DatabaseKey := c.database]
  }

  /** The five keys are pairwise different. */
  lemma KeysDistinct()
    ensures UserKey != PasswordKey && UserKey != HostKey && UserKey != PortKey && UserKey != DatabaseKey
    ensures PasswordKey != HostKey && PasswordKey != PortKey && PasswordKey != DatabaseKey
    ensures HostKey != PortKey && HostKey != DatabaseKey && PortKey != DatabaseKey
  {
    assert UserKey[4] == 'U' && PasswordKey[4] == 'P' && HostKey[4] == 'H';
    assert PortKey[4] == 'P' && DatabaseKey[4] == 'D' && PasswordKey[5] == 'A' && PortKey[5] == 'O';
  }

  /** Reading back an environment written from credentials gives those credentials. */
  lemma ReadDbCredsRoundTrip(c: Creds)
    ensures ReadDbCreds(EnvFor(c)) == Ok(c)
  {
    ParseIntOfIntToString(c.port);
  }

  /** Only the five credential keys matter: the rest of the environment is ignored. */
  lemma ReadDbCredsReadsOnlyItsKeys(env: Env, other: Env)
    requires forall k :: k in CredentialKeys ==> (k in env <==> k in other)
    requires forall k :: k in CredentialKeys && k in env ==> env[k] == other[k]
    ensures ReadDbCreds(env) == ReadDbCreds(other)
  {
    forall i | 0 <= i < |CredentialKeys|
      ensures CredentialKeys[i] in env <==> CredentialKeys[i] in other
    {
      assert CredentialKeys[i] in CredentialKeys;
    }
    FirstUnsetAgrees(CredentialKeys, env, other);
    if AllSet(env) {
      assert UserKey in CredentialKeys && PasswordKey in CredentialKeys && HostKey in CredentialKeys;
      assert PortKey in CredentialKeys && DatabaseKey in CredentialKeys;
      assert env[PortKey] == other[PortKey];
    }
  }

  /** Environments that agree on which of `keys` are present find the same first gap. */
  lemma {:induction false} FirstUnsetAgrees(keys: seq<string>, env: Env, other: Env)
    requires forall i :: 0 <= i < |keys| ==> (keys[i] in env <==> keys[i] in other)
    ensures FirstUnset(keys, env) == FirstUnset(keys, other)
  {
    if keys != [] && keys[0] in env {
      FirstUnsetAgrees(keys[1..], env, other);
    }
  }

  /** The message names the missing key, and never reads as the port message. */
  lemma UnsetMessageNamesKey(a: string, b: string)
    ensures UnsetMessage(a) == UnsetMessage(b) ==> a == b
    ensures UnsetMessage(a) != InvalidPortMessage
  {
    var head := "Environment variable ";
    var tail := " is not set";
    if UnsetMessage(a) == UnsetMessage(b) {
      assert |a| == |b|;
      assert a == UnsetMessage(a)[|head|..|head| + |a|];
      assert b == UnsetMessage(b)[|head|..|head| + |b|];
    }
    assert UnsetMessage(a)[0] == 'E' && InvalidPortMessage[0] == 'I';
  }

  /** With only the host and the port set, the first key in order, `RDS_USER`, is reported. */
  lemma ReadDbCredsReportsFirstGap()
    ensures ReadDbCreds(map[HostKey := "db", PortKey := "5432"]) == Err(ValueError("Environment variable RDS_USER is not set"))
  {
    KeysDistinct();
    var missing := map[HostKey := "db", PortKey := "5432"];
    assert FirstUnsetAt(CredentialKeys, missing, 0);
    assert UnsetMessage(UserKey) == "Environment variable RDS_USER is not set";
  }

  /** An empty password counts as set, so the missing `RDS_DATABASE` is what is reported. */
  lemma ReadDbCredsEmptyCountsAsSet()
    ensures ReadDbCreds(map[UserKey := "u", PasswordKey := "", HostKey := "db", PortKey := "5432"])
         == Err(ValueError("Environment variable RDS_DATABASE is not set"))
  {
    KeysDistinct();
    var noDatabase := map[UserKey := "u", PasswordKey := "", HostKey := "db", PortKey := "5432"];
    assert FirstUnsetAt(CredentialKeys, noDatabase, 4);
    assert UnsetMessage(DatabaseKey) == "Environment variable RDS_DATABASE is not set";
  }

  /** A complete sample environment whose `RDS_PORT` is `port`. */
  function SampleEnv(port: string): (env: Env)
    ensures AllSet(env) && env[PortKey] == port
    ensures env[UserKey] == "u" && env[PasswordKey] == "p" && env[HostKey] == "db" && env[DatabaseKey] == "d"
  {
    KeysDistinct();
    map[UserKey := "u", PasswordKey := "p", HostKey := "db", PortKey := port, DatabaseKey := "d"]
  }

  /** Sample ports: `int()` padding and digit separators are accepted, a
      decimal point is not, and the value is never range-checked. */
  lemma ReadDbCredsPortExamples()
    ensures ReadDbCreds(SampleEnv(" 5_432\n")) == Ok(Creds("u", "p", "db", 5432, "d"))
    ensures ReadDbCreds(SampleEnv("54.32")) == Err(ValueError(InvalidPortMessage))
    ensures ReadDbCreds(SampleEnv("-1")) == Ok(Creds("u", "p", "db", -1, "d"))
  {
    ParseIntPaddedExample();
    ParseIntRefusesExample();
    ParseIntNegativeExample();
  }
}
