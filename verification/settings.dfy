/** The per-user storage settings endpoints (sheaf/routers/settings.py): the Azure connection
    string builder, the validation and merge of an update, and the read model that hides the
    connection string. The Azure reachability check is a parameter. */
module StorageSettings {
  import opened Wrappers

  const Prefix := "DefaultEndpointsProtocol=https;AccountName="
  const KeyLabel := ";AccountKey="
  const Suffix := ";EndpointSuffix=core.windows.net"

  /** `_build_connection_string`. */
  function BuildConnectionString(accountName: string, accountKey: string): (s: string)
    ensures |s| == |Prefix| + |accountName| + |KeyLabel| + |accountKey| + |Suffix|
    ensures s[..|Prefix|] == Prefix && s[|s| - |Suffix|..] == Suffix
    ensures s[|Prefix|..|Prefix| + |accountName|] == accountName
    ensures s[|Prefix| + |accountName|..|Prefix| + |accountName| + |KeyLabel|] == KeyLabel
    ensures s[|s| - |Suffix| - |accountKey|..|s| - |Suffix|] == accountKey
    ensures s != ""
  {
    Prefix + accountName + KeyLabel + accountKey + Suffix
  }

  /** The first position of `c` in `s`. */
  function IndexOf(s: string, c: char): (i: Option<nat>)
    ensures i.Some? ==> i.value < |s| && s[i.value] == c && c !in s[..i.value]
    ensures i.None? <==> c !in s
  {
    if s == [] then None
    else if s[0] == c then Some(0)
    else
      match IndexOf(s[1..], c)
      case Some(k) =>
        assert s[..k + 1] == [s[0]] + s[1..][..k];
        Some(k + 1)
      case None =>
        assert s == [s[0]] + s[1..];
        None
  }

  /** Reads the account name and key back out of a connection string of the built form.
      The router has no such parser: this is the reference inverse that pins down what
      `BuildConnectionString` encodes. A string it accepts is exactly the one built from
      what it returns. */
  function ParseConnectionString(s: string): (r: Option<(string, string)>)
    ensures r.Some? ==> ';' !in r.value.0 && s == BuildConnectionString(r.value.0, r.value.1)
  {
    if |s| < |Prefix| + |Suffix| || s[..|Prefix|] != Prefix || s[|s| - |Suffix|..] != Suffix then None
    else
      var middle := s[|Prefix|..|s| - |Suffix|];
      Framed(s, Prefix, Suffix);
      var r := ParseAccount(middle);
      if r.None? then None
      else
        Regroup(Prefix, r.value.0, KeyLabel, r.value.1, Suffix);
        r
  }

  /** A string that starts with `p` and ends with `q` is `p`, its middle, then `q`. */
  lemma Framed(s: string, p: string, q: string)
    requires |p| + |q| <= |s| && s[..|p|] == p && s[|s| - |q|..] == q
    ensures s == p + s[|p|..|s| - |q|] + q
  {
    assert s == s[..|p|] + s[|p|..|s| - |q|] + s[|s| - |q|..];
  }

  lemma Regroup(a: string, b: string, c: string, d: string, e: string)
    ensures a + (b + c + d) + e == a + b + c + d + e
  {
  }

  /** Splits `name;AccountKey=key` at its first `;`. */
  function ParseAccount(middle: string): (r: Option<(string, string)>)
    ensures r.Some? ==> ';' !in r.value.0 && middle == r.value.0 + KeyLabel + r.value.1
  {
    match IndexOf(middle, ';')
    case None => None
    case Some(i) =>
      var rest := middle[i..];
      if |rest| < |KeyLabel| || rest[..|KeyLabel|] != KeyLabel then None
      else
        Framed(middle, middle[..i], []);
        Framed(rest, KeyLabel, []);
        Regroup([], middle[..i], KeyLabel, rest[|KeyLabel|..], []);
        Some((middle[..i], rest[|KeyLabel|..]))
  }

  /** The first `c` after a stretch without one is found at the end of that stretch. */
  lemma {:induction false} IndexOfAfter(a: string, c: char, b: string)
    requires c !in a
    ensures IndexOf(a + [c] + b, c) == Some(|a|)
  {
    if a != [] {
      assert (a + [c] + b)[1..] == a[1..] + [c] + b;
      IndexOfAfter(a[1..], c, b);
    }
  }

  /** The prefix and suffix frame is stripped off exactly. */
  lemma ParseFrame(middle: string)
    ensures ParseConnectionString(Prefix + middle + Suffix) == ParseAccount(middle)
  {
    var s := Prefix + middle + Suffix;
    assert s[..|Prefix|] == Prefix;
    assert s[|s| - |Suffix|..] == Suffix;
    assert s[|Prefix|..|s| - |Suffix|] == middle;
  }

  /** Splitting a concatenation at the end of its first part gives the parts back. */
  lemma SplitAt(a: string, b: string)
    ensures (a + b)[..|a|] == a && (a + b)[|a|..] == b
  {
  }

  /** The account part splits back into the name and the key. */
  lemma ParseAccountBuild(accountName: string, accountKey: string)
    requires ';' !in accountName
    ensures ParseAccount(accountName + KeyLabel + accountKey) == Some((accountName, accountKey))
  {
    var rest := KeyLabel + accountKey;
    var middle := accountName + rest;
    assert accountName + KeyLabel + accountKey == middle;
    var tail := KeyLabel[1..] + accountKey;
    assert rest == [';'] + tail by {
      assert KeyLabel == [KeyLabel[0]] + KeyLabel[1..];
    }
    assert middle == accountName + [';'] + tail;
    IndexOfAfter(accountName, ';', tail);
    SplitAt(accountName, rest);
    SplitAt(KeyLabel, accountKey);
  }

  /** The builder loses nothing: an account name without `;` and any key are read back. */
  lemma ParseBuild(accountName: string, accountKey: string)
    requires ';' !in accountName
    ensures ParseConnectionString(BuildConnectionString(accountName, accountKey)) == Some((accountName, accountKey))
  {
    var middle := accountName + KeyLabel + accountKey;
    Regroup(Prefix, accountName, KeyLabel, accountKey, Suffix);
    ParseFrame(middle);
    ParseAccountBuild(accountName, accountKey);
  }

  // ---------------------------------------------------------------------------

  /** `StorageSettingsUpdate`: every field but the backend may be omitted (None). */
  datatype StorageSettingsUpdate = StorageSettingsUpdate(
    storageBackend: string,
    azureAccountName: Option<string>,
    azureAccountKey: Option<string>,
    azureContainerName: Option<string>)

  /** The three storage columns of a user. */
  datatype StorageConfig = StorageConfig(
    storageBackend: string,
    azureConnectionString: Option<string>,
    azureContainerName: Option<string>)

  /** `StorageSettingsRead`: whether a connection string is set, never the string itself. */
  datatype StorageSettingsRead = StorageSettingsRead(
    storageBackend: string,
    azureConnectionStringSet: bool,
    azureContainerName: Option<string>)

  /** How `_test_azure_connection` ends: normally, with `ImportError`, or with another exception. */
  datatype AzureCheck = Reachable | SdkMissing | ConnectionFailed(message: string)

  /** The Azure reachability check for a connection string and a container. */
  type AzureProbe = (string, string) -> AzureCheck

  /** Python truthiness of an optional string: None and "" are false. */
  predicate Truthy(s: Option<string>) {
    s.Some? && s.value != ""
  }

  const InvalidBackend := "storage_backend must be 'local' or 'azure'"
  const MissingAzureFields := "Azure account name, access key, and container name are required"
  const SdkNotInstalled := "Azure SDK not installed on server (pip install sheaf[azure])"

  /** The new connection string, branch for branch: rebuilt when both account fields are
      given; otherwise "cleared" when both equal "" (a test that only values that are given
      can pass); otherwise kept. */
  function NewConnectionString(current: Option<string>, accountName: Option<string>, accountKey: Option<string>): (r: Option<string>)
    ensures accountName.Some? && accountKey.Some? ==> r == Some(BuildConnectionString(accountName.value, accountKey.value))
    ensures r.None? ==> current.None?
  {
    if accountName.Some? && accountKey.Some? then Some(BuildConnectionString(accountName.value, accountKey.value))
    else if accountName == Some("") && accountKey == Some("") then None
    else current
  }

  /** The clearing branch never fires: "" is a given value, so the first branch takes it. */
  lemma ClearBranchUnreachable(current: Option<string>, accountName: Option<string>, accountKey: Option<string>)
    ensures NewConnectionString(current, accountName, accountKey) ==
      if accountName.Some? && accountKey.Some? then Some(BuildConnectionString(accountName.value, accountKey.value))
      else current
  {
  }

  /** The validation and merge of `update_storage_settings`: the new three columns, or the
      detail of the 400 response. */
  function Decide(current: StorageConfig, body: StorageSettingsUpdate, probe: AzureProbe): (r: Result<StorageConfig, string>)
    ensures body.storageBackend !in {"local", "azure"} ==> r == Failure(InvalidBackend)
    ensures r.Success? ==>
      && r.value.storageBackend == body.storageBackend
      && r.value.azureContainerName == (if body.azureContainerName.Some? then body.azureContainerName else current.azureContainerName)
      && (body.azureAccountName.Some? && body.azureAccountKey.Some? ==>
            r.value.azureConnectionString == Some(BuildConnectionString(body.azureAccountName.value, body.azureAccountKey.value)))
      && (body.azureAccountName.None? || body.azureAccountKey.None? ==>
            r.value.azureConnectionString == current.azureConnectionString)
    ensures body.storageBackend == "local" ==> r.Success?
    ensures body.storageBackend == "azure" ==>
      var conn := NewConnectionString(current.azureConnectionString, body.azureAccountName, body.azureAccountKey);
      var container := if body.azureContainerName.Some? then body.azureContainerName else current.azureContainerName;
      && (!Truthy(conn) || !Truthy(container) ==> r == Failure(MissingAzureFields))
      && (Truthy(conn) && Truthy(container) ==>
            match probe(conn.value, container.value)
            case Reachable => r.Success?
            case SdkMissing => r == Failure(SdkNotInstalled)
            case ConnectionFailed(m) => r == Failure("Azure connection failed: " + m))
  {
    ClearBranchUnreachable(current.azureConnectionString, body.azureAccountName, body.azureAccountKey);
    if body.storageBackend !in {"local", "azure"} then Failure(InvalidBackend)
    else
      var conn := NewConnectionString(current.azureConnectionString, body.azureAccountName, body.azureAccountKey);
      var container := if body.azureContainerName.Some? then body.azureContainerName else current.azureContainerName;
      var accepted := Success(StorageConfig(body.storageBackend, conn, container));
      if body.storageBackend != "azure" then accepted
      else if !Truthy(conn) || !Truthy(container) then Failure(MissingAzureFields)
      else
        match probe(conn.value, container.value)
        case Reachable => accepted
        case SdkMissing => Failure(SdkNotInstalled)
        case ConnectionFailed(m) => Failure("Azure connection failed: " + m)
  }

  /** A setting accepted with the Azure backend is complete and was reachable when saved. */
  lemma AzureAcceptedIsComplete(current: StorageConfig, body: StorageSettingsUpdate, probe: AzureProbe)
    requires Decide(current, body, probe).Success? && body.storageBackend == "azure"
    ensures var saved := Decide(current, body, probe).value;
      && Truthy(saved.azureConnectionString) && Truthy(saved.azureContainerName)
      && probe(saved.azureConnectionString.value, saved.azureContainerName.value) == Reachable
  {
  }

  /** The read model. */
  function ReadOf(config: StorageConfig): (r: StorageSettingsRead)
    ensures r.storageBackend == config.storageBackend
    ensures r.azureConnectionStringSet <==> Truthy(config.azureConnectionString)
    ensures r.azureContainerName == config.azureContainerName
  {
    StorageSettingsRead(config.storageBackend, Truthy(config.azureConnectionString), config.azureContainerName)
  }

  /** The read model does not depend on which connection string is stored, only on whether
      one is: two users whose strings differ read the same. */
  lemma ReadHidesConnectionString(a: StorageConfig, b: StorageConfig)
    requires a.storageBackend == b.storageBackend && a.azureContainerName == b.azureContainerName
    requires Truthy(a.azureConnectionString) == Truthy(b.azureConnectionString)
    ensures ReadOf(a) == ReadOf(b)
  {
  }

  // ---------------------------------------------------------------------------

  /** The storage columns of the `User` row that the endpoints update in place. */
  class UserStorage {
    var storageBackend: string
    var azureConnectionString: Option<string>
    var azureContainerName: Option<string>

    /** A new user: the column defaults. */
    constructor ()
      ensures storageBackend == "local" && azureConnectionString == None && azureContainerName == None
    {
      storageBackend := "local";
      azureConnectionString := None;
      azureContainerName := None;
    }

    function Config(): StorageConfig
      reads this
    {
      StorageConfig(storageBackend, azureConnectionString, azureContainerName)
    }

    /** `get_storage_settings`. */
    function GetStorageSettings(): (r: StorageSettingsRead)
      reads this
      ensures r.storageBackend == storageBackend
      ensures r.azureConnectionStringSet <==> Truthy(azureConnectionString)
      ensures r.azureContainerName == azureContainerName
    {
      ReadOf(Config())
    }

    /** `update_storage_settings`: on a 400 nothing is assigned; otherwise the three columns
        take the decided values together. */
    method UpdateStorageSettings(body: StorageSettingsUpdate, probe: AzureProbe) returns (r: Result<StorageSettingsRead, string>)
      modifies this
      ensures var decided := Decide(old(Config()), body, probe);
        && (decided.Failure? ==> r == Failure(decided.error) && Config() == old(Config()))
        && (decided.Success? ==> Config() == decided.value && r == Success(GetStorageSettings()))
    {
      var decided := Decide(Config(), body, probe);
      if decided.Failure? {
        return Failure(decided.error);
      }
      storageBackend := decided.value.storageBackend;
      azureConnectionString := decided.value.azureConnectionString;
      azureContainerName := decided.value.azureContainerName;
      r := Success(GetStorageSettings());
    }
  }

  /** The scenarios of tests/test_settings.py, on a new user: the Azure backend without
      credentials is refused, an unknown backend is refused, and a container name saved
      with the local backend is read back without any connection string. */
  lemma SettingsScenarios(probe: AzureProbe)
    ensures Decide(StorageConfig("local", None, None), StorageSettingsUpdate("azure", None, None, None), probe)
              == Failure(MissingAzureFields)
    ensures Decide(StorageConfig("local", None, None), StorageSettingsUpdate("s3", None, None, None), probe)
              == Failure(InvalidBackend)
    ensures var r := Decide(StorageConfig("local", None, None), StorageSettingsUpdate("local", None, None, Some("my-container")), probe);
      && r.Success?
      && ReadOf(r.value) == StorageSettingsRead("local", false, Some("my-container"))
  {
  }
}
